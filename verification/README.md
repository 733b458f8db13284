# Models of the U25N network drivers

This project models the parts of the U25N drivers in which state machines, ring protocols
and index arithmetic carry the difficulty, and proves what they are relied on for. It
covers the Solarflare driver (`u25n_driver/drivers/net/ethernet/sfc`) and the AXI Ethernet
DMA driver (`u25n_mcdma_driver`).

| file | what it models |
|---|---|
| `udp_tunnel.dfy` | the EF10 UDP tunnel port table: add, delete and push, with the lock dropped during the firmware call |
| `event_queue.dfy` | reading EF10 events through a private cache line while the NIC writes |
| `rx_decode.dfy` | rebuilding receive positions from a few pointer bits |
| `rx_doorbell.dfy` | giving EF10 receive buffers to the hardware in multiples of eight |
| `mli_tree.dfy`, `dump_buffer.dfy` | the multi-level indirection tree of a core dump, and the life of its buffer |
| `axi_tx.dfy`, `axi_rx.dfy` | the AXI DMA descriptor rings |
| `driverlink.dfy` | the registry of NICs, client drivers and the handles between them |
| `bitfield.dfy` | fields in little-endian words, in 64- and 32-bit elements |
| `xilinx_table.dfy` | the walk through the Xilinx capability tables |
| `vi_channels.dfy` | sharing out virtual interfaces, and the retry loop around it |
| `pio_buffers.dfy` | slices of programmed-I/O buffers and their mappings |
| `ring_index.dfy` | positions, ring slots and the kernel's CIRC_SPACE |
| `arithmetic.dfy`, `wrappers.dfy` | facts about products and quotients; optional values |

Protocols are state machines whose steps lie between the points where the code can be
interrupted; theorems about runs quantify over all interleavings of driver, firmware and
hardware steps. The code that works in place is a class with methods. Its `Valid()` ties
the fields to a protocol state, and every method is proved to move that state by the
protocol's own steps, or to leave exactly the fields its specification function says.

Positions in rings count up without bound; the drivers' wrapping indices and 32-bit
counters are their remainders. Table sizes, ring sizes, pointer widths, fan-outs, quotas
and register layouts are parameters with the side conditions the code needs; an event
queue has more than one cache line, as the driver's minimum of 512 events ensures.

## Where the code falls short of what it suggests

These are stated as lemmas with the exact condition or the failing input.

- `add_port` has a branch for a slot whose removal is pending; it is never taken, because
  the lookup passes over slots with a zero count (`UdpTunnel.PendingRemovalIsNotRevived`).
- A table that references port 0 makes the push loop for ever
  (`UdpTunnel.UndisturbedPushEndsInOnePass`, `UdpTunnel.PortZeroLoops`).
- Lost receive events go unnoticed when the total progress is a whole number of laps of
  the pointer bits, or one more, or when the event after them can be a merged one: then the
  lost descriptors are taken for packets (`RxDecode.LossIsNoticed`,
  `RxDecode.LossTakenForMerged`).
- Re-arming dumps after a reset, when the firmware was in fact still armed and the call
  fails, lets a later disable free a buffer that armed firmware still points to
  (`DumpBuffer.StepSafeIffProper`, `DumpBuffer.ImproperResetIsUnsafe`,
  `DumpBuffer.ImproperResetIsReachable`).
- CIRC_SPACE needs a power-of-two ring, though any size up to the maximum can be set
  (`RingIndex.CircSpaceNeedsPowerOfTwo`).
- A packet with as many descriptors as the ring has stops the transmit queue for good
  (`AxiTx.OversizedPacketStopsForGood`), and the error reset does not wake a stopped queue
  (`AxiTx.ResetLosesWakeIff`).
- The error handler takes no lock and stops no queue. Even taken as one step, on the
  transmit ring it does harm exactly when it falls on the transmit path in the middle of a
  packet, on the reaper while it holds a complete status or a descriptor it has cleared and
  not counted, or when either has looked up a descriptor other than the first
  (`AxiTx.ResetKeepsIff`); a packet about to be handed over is then freed and sent all the
  same (`AxiTx.ResetDuringHandOver`, `AxiTx.HandOverIsReachable`), a packet just freed by
  the reaper is freed twice, and the reaper loses step with the hardware
  (`AxiTx.ResetFrees`, `AxiTx.ResetDuringTurn`, `AxiTx.TurnIsReachable`). On the receive ring
  it does harm exactly when it falls inside a turn of the loop, or when the poll routine has
  looked up a descriptor other than the first (`AxiRx.ResetKeepsIff`,
  `AxiRx.ResetDuringTurn`, `AxiRx.ResetWhileHanded`, `AxiRx.TurnIsReachable`); and a tail
  from before the reset does harm exactly when it is written after the hardware has filled
  that slot (`AxiRx.WriteTailKeepsIff`, `AxiRx.LateTailIsReachable`).
- A probe routine that fails after publishing twice, or after blocking a filter, leaves
  that behind on the NIC (`Driverlink.Registry.TryAddDevice`).
- A value too wide for its field is not masked by a read-modify-write
  (`Bitfield.SetEveryBit`, `Bitfield.SetReplacesIff`).
- The table walk reads past the end of a BAR exactly if it goes on to a sub-table in the BAR
  that is mapped already and that starts outside it, which is not checked, or comes to an
  entry that it does not move on from and that has its header inside and the rest of what is
  read outside (`XilinxTable.LogInsideIff`, `XilinxTable.LastEntryOverhangs`); and a function control
  window at 4 GiB or above comes out wrong (`XilinxTable.WindowOffsetExactIff`).
- The VI retry loop goes round for as long as the firmware answers "try again" and grants
  nothing, though its first such pass takes all channels away (`ViChannels.PassesTaken`,
  `ViChannels.RepeatLeavesNone`).
- A slice size that does not divide the PIO buffer size makes a slice cross the end of a
  buffer as soon as one buffer does not suffice (`PioBuffers.SlicesFitIff`).
- With fewer VIs than TX queues the BUG_ON of the PIO linking can fire
  (`PioBuffers.BugFiresIff`, `PioBuffers.BugFiresWithFour`), and a VI that buffers are
  written through can end up linked to another buffer (`PioBuffers.SharedViKeepsBuffer`,
  `PioBuffers.ViTakenAway`).
- When too few VIs are granted to map the PIO buffers, these are given back, but the queue
  that shares the first VI of the mapping still gets a link (`PioBuffers.UnbackedIff`,
  `PioBuffers.UnbackedLink`). And when a queue finds the network down, the queues before it
  keep their links while the caller gives the buffers back (`PioBuffers.LinkPiobufs`,
  `PioBuffers.StrandedIff`); when buffers are restored after a reset, initialising goes on
  with that (`u25n_driver/drivers/net/ethernet/sfc/ef10.c:1473-1492`).

## Model

| member | source | states |
|---|---|---|
| `UdpTunnel.HasPortSound` | u25n_driver/drivers/net/ethernet/sfc/ef10.c:5136-5149 | In every interleaving of add, del, push and firmware steps: when has_port says yes for a port, that port with the slot's type is in the firmware's table (unless the firmware rebooted since it last applied a list) and in any list in flight |
| `UdpTunnel.NoLostUpdate` | u25n_driver/drivers/net/ethernet/sfc/ef10.c:4982-5004 | A slot still marked adding or removing means that a push is running, scheduled, or has just failed |
| `UdpTunnel.SuccessfulPushIsExact` | u25n_driver/drivers/net/ethernet/sfc/ef10.c:4982-5004 | When a push ends well the firmware has exactly the referenced entries, in slot order, and has_port answers yes for exactly the ports the firmware has |
| `UdpTunnel.QuietTableIsExact` | u25n_driver/drivers/net/ethernet/sfc/ef10.c:5136-5149 | With no slot dirty and the firmware holding the referenced entries, has_port is the firmware's own answer, both ways |
| `UdpTunnel.CountsFollowLedger` | u25n_driver/drivers/net/ethernet/sfc/ef10.c:5066-5118 | Referenced slots have different ports, and each count is the accepted adds minus the accepted dels of its port until it saturates |
| `UdpTunnel.NamedSlotsAreKept` | u25n_driver/drivers/net/ethernet/sfc/ef10.c:5105-5118 | While a list is in flight no run of other steps changes the list or gives a slot it names to another port |
| `UdpTunnel.NamedSlotsSurviveStep` | u25n_driver/drivers/net/ethernet/sfc/ef10.c:5105-5118 | The same for one step |
| `UdpTunnel.UndisturbedPushEndsInOnePass` | u25n_driver/drivers/net/ethernet/sfc/ef10.c:4893-5004 | Without interference a push ends after one firmware call if and only if no referenced slot has port 0 |
| `UdpTunnel.PassLeavesPortZero` | u25n_driver/drivers/net/ethernet/sfc/ef10.c:4895-4911 | One answered call leaves something to do exactly when port 0 is in the table: no list ever names it |
| `UdpTunnel.PassEffect` | u25n_driver/drivers/net/ethernet/sfc/ef10.c:4893-5004 | After one undisturbed call the push is over, or it has begun again with port 0 still in the table |
| `UdpTunnel.PortZeroLoops` | u25n_driver/drivers/net/ethernet/sfc/ef10.c:4999-5001 | With port 0 referenced the push is still running after any number of undisturbed calls |
| `UdpTunnel.PendingRemovalIsNotRevived` | u25n_driver/drivers/net/ethernet/sfc/ef10.c:5066-5092 | Adding a port never touches a slot whose removal is pending; the branch that would revive such a slot is never taken, because the lookup passes over it |
| `UdpTunnel.AddTakesFreeSlot` | u25n_driver/drivers/net/ethernet/sfc/ef10.c:5103-5118 | Adding a port that no slot counts, if some slot has no count and no flag: the first such slot gets the entry, with count one and marked adding, nothing else changes, and a push is scheduled |
| `UdpTunnel.AddNeedsRoom` | u25n_driver/drivers/net/ethernet/sfc/ef10.c:5103-5122 | Without such a slot nothing happens |
| `UdpTunnel.AddCounts` | u25n_driver/drivers/net/ethernet/sfc/ef10.c:5066-5101 | Adding a port that a slot counts, in every reachable state: with the same kind that count goes up by one, to at most 0x3fff, and with another kind nothing happens |
| `UdpTunnel.DelOfAbsent` | u25n_driver/drivers/net/ethernet/sfc/ef10.c:5151-5205 | Deleting a port that no slot counts does nothing |
| `UdpTunnel.DelCounts` | u25n_driver/drivers/net/ethernet/sfc/ef10.c:5168-5200 | Deleting takes one off the count unless it has reached 0x3fff; the last one leaves the slot marked removing and schedules a push; and with another kind nothing happens |
| `UdpTunnel.AddedIsOffloaded` | u25n_driver/drivers/net/ethernet/sfc/ef10.c:4863-5149 | From any reachable idle table without port 0: a new port that finds a free slot, pushed without interference, is in the firmware's table, and has_port says yes |
| `UdpTunnel.EioForgetsAll` | u25n_driver/drivers/net/ethernet/sfc/ef10.c:4947-4961 | After a reboot under the request every counted slot is to be added again and none removed, and has_port says no for every port |
| `UdpTunnel.ReconcileSettles` | u25n_driver/drivers/net/ethernet/sfc/ef10.c:4984-4997 | Marking the named slots added and the others removed keeps counts, entries and the slot rules, and clears exactly the flags the call dealt with |
| `UdpTunnel.ReconcileConfirms` | u25n_driver/drivers/net/ethernet/sfc/ef10.c:4984-4997 | A slot that reconciling leaves settled is in the table the firmware applied |
| `UdpTunnel.ReconcileExact` | u25n_driver/drivers/net/ethernet/sfc/ef10.c:4999-5004 | If nothing is dirty after reconciling, the list that was sent names exactly the referenced slots |
| `UdpTunnel.StepKeeps` | u25n_driver/drivers/net/ethernet/sfc/ef10.c:4863-5210 | Every atomic step of driver and firmware keeps the protocol invariant |
| `UdpTunnel.ReachableInv` | u25n_driver/drivers/net/ethernet/sfc/ef10.c:4863-5210 | The invariant holds after every run from an empty table of any size |
| `UdpTunnel.SelectMember` | u25n_driver/drivers/net/ethernet/sfc/ef10.c:4895-4911 | The list sent to the firmware contains an entry if and only if a marked slot holds it |
| `UdpTunnel.Lookup` | u25n_driver/drivers/net/ethernet/sfc/ef10.c:5033-5046 | The first referenced slot with the port, or none |
| `UdpTunnel.FirstEmpty` | u25n_driver/drivers/net/ethernet/sfc/ef10.c:5105-5110 | The first slot with no count and no flag, or none |
| `UdpTunnel.TunnelTable.LookupPort` | u25n_driver/drivers/net/ethernet/sfc/ef10.c:5033-5046 | The scan returns the first match |
| `UdpTunnel.TunnelTable.FindUnused` | u25n_driver/drivers/net/ethernet/sfc/ef10.c:5105-5110 | The scan returns the first empty slot |
| `UdpTunnel.TunnelTable.ReferenceSlot` | u25n_driver/drivers/net/ethernet/sfc/ef10.c:5075-5092 | A match gains a reference, up to saturation; nothing else changes |
| `UdpTunnel.TunnelTable.ReleaseSlot` | u25n_driver/drivers/net/ethernet/sfc/ef10.c:5174-5194 | A match loses a reference unless saturated, and is marked removing at zero |
| `UdpTunnel.TunnelTable.AddPort` | u25n_driver/drivers/net/ethernet/sfc/ef10.c:5048-5128 | The whole add is one Add step of the protocol, and schedules a push exactly when it inserted |
| `UdpTunnel.TunnelTable.DelPort` | u25n_driver/drivers/net/ethernet/sfc/ef10.c:5151-5210 | The whole del is one Del step, and schedules a push exactly when the count fell to zero |
| `UdpTunnel.TunnelTable.PortOffloaded` | u25n_driver/drivers/net/ethernet/sfc/ef10.c:5136-5149 | has_port, with its soundness against the firmware's table |
| `UdpTunnel.TunnelTable.BeginPush` | u25n_driver/drivers/net/ethernet/sfc/ef10.c:4893-4912 | Builds the snapshot of named slots and the list, slot by slot |
| `UdpTunnel.TunnelTable.MarkDone` | u25n_driver/drivers/net/ethernet/sfc/ef10.c:4986-4997 | Reconciles the table in place and reports whether anything is left |
| `UdpTunnel.TunnelTable.MarkAbsent` | u25n_driver/drivers/net/ethernet/sfc/ef10.c:4953-4958 | After a firmware reboot every referenced slot is to be added again and nothing to be removed |
| `UdpTunnel.TunnelTable.FinishCall` | u25n_driver/drivers/net/ethernet/sfc/ef10.c:4947-5004 | The work after the lock is retaken, for each kind of reply, is the protocol's steps for it |
| `UdpTunnel.TunnelTable.RunCall` | u25n_driver/drivers/net/ethernet/sfc/ef10.c:4914-5004 | One firmware call with arbitrary adds and dels during it |
| `UdpTunnel.TunnelTable.SetUdpTnlPorts` | u25n_driver/drivers/net/ethernet/sfc/ef10.c:4863-5006 | The whole push loop against arbitrary interference: it returns at once when another push is running; otherwise it sends the lists that the protocol sends, one for each call used, leaves the protocol's state, reports an error exactly if the last answer was one, and after a good last answer the table is clean and the firmware has exactly the referenced entries |
| `UdpTunnel.TunnelTable.MakeCalls` | u25n_driver/drivers/net/ethernet/sfc/ef10.c:4863-5006 | The loop over the calls of a push that has begun |
| `UdpTunnel.TunnelTable.CallAndBegin` | u25n_driver/drivers/net/ethernet/sfc/ef10.c:4863-5004 | One call, and the next list if the push goes on |
| `UdpTunnel.PushingIsRun` | u25n_driver/drivers/net/ethernet/sfc/ef10.c:4863-5006 | The calls a push uses are a run of the protocol's steps; every answer before the last is good, and it ends before its calls do only by the answer of the last one used |
| `UdpTunnel.GoodEndIsExact` | u25n_driver/drivers/net/ethernet/sfc/ef10.c:4982-5004 | A push that ends with a good answer, whatever happened during its calls, leaves no slot dirty and exactly the referenced entries in the firmware |
| `UdpTunnel.CallEnds` | u25n_driver/drivers/net/ethernet/sfc/ef10.c:4947-5004 | A push goes on after a call only if that was answered well, and fails exactly if it was not |
| `RingIndex.IdxIsRemainder` | u25n_mcdma_driver/xilinx_axienet_main.c:796-806 | Ring slots are positions modulo the ring size |
| `RingIndex.IdxNext` | u25n_mcdma_driver/xilinx_axienet_main.c:836-837 | Incrementing an index with a wrap test follows the position |
| `RingIndex.IdxDistinct` | u25n_mcdma_driver/xilinx_axienet_main.c:1216-1221 | Positions less than a lap apart use different slots |
| `RingIndex.IdxOnto` | u25n_mcdma_driver/xilinx_axienet_main.c:796-806 | Every slot is used by exactly one position of a lap |
| `RingIndex.MaskIsRemainder` | u25n_driver/drivers/net/ethernet/sfc/rx_common.c:222 | Masking with size - 1 is the remainder for a power of two |
| `RingIndex.WordIsWholeLaps` | u25n_driver/drivers/net/ethernet/sfc/rx_common.c:222 | Wrapping at 2^32 does not show in the mask of a power-of-two ring |
| `RingIndex.CircSpaceExact` | u25n_mcdma_driver/xilinx_axienet_main.c:878-888 | CIRC_SPACE on unsigned 32-bit numbers leaves exactly one slot unused, also while the consumer index has not been wrapped yet |
| `RingIndex.CircSpaceNeedsPowerOfTwo` | u25n_mcdma_driver/xilinx_axienet_main.c:878-888 | CIRC_SPACE measures the room of a ring correctly for all indices if and only if the ring size is a power of two |
| `MliTree.WalkReachesPage` | u25n_driver/drivers/net/ethernet/sfc/dump.c:304-323 | For any page count and any fan-out of at least two, following the base-e digits of p from the root page reaches data page p |
| `MliTree.WalkFromLevel` | u25n_driver/drivers/net/ethernet/sfc/dump.c:304-317 | The same from the indirection page above p on any level |
| `MliTree.DepthIsMinimal` | u25n_driver/drivers/net/ethernet/sfc/dump.c:265-274 | The depth the sizing loop computes is the least number of digits that number every page |
| `MliTree.DepthLevels` | u25n_driver/drivers/net/ethernet/sfc/dump.c:265-274 | The loop runs exactly while a level has more than one page and ends with one root page |
| `MliTree.SizeAtMost` | u25n_driver/drivers/net/ethernet/sfc/dump.c:265-274 | A level has at most m pages exactly when m full subtrees of that height cover the data |
| `MliTree.DigitsWriteNumber` | u25n_driver/drivers/net/ethernet/sfc/dump.c:304-317 | The digits used as entry numbers are positional notation for the page number |
| `MliTree.PageAboveInRange` | u25n_driver/drivers/net/ethernet/sfc/dump.c:310-317 | Every page index of the walk stays below total_pages, and the top one is the last page |
| `MliTree.PrefixInRange` | u25n_driver/drivers/net/ethernet/sfc/dump.c:310-317 | The page above a data page exists on every level |
| `MliTree.BaseGrows` | u25n_driver/drivers/net/ethernet/sfc/dump.c:265-274 | Levels occupy consecutive, non-overlapping stretches of the page array |
| `DumpBuffer.StepSafeIffProper` | u25n_driver/drivers/net/ethernet/sfc/dump.c:352-489 | One set or reset, with any answers of firmware and allocator, keeps "armed firmware is known to be armed and has its buffer" if and only if it is not a reset that finds the firmware still armed and either gets no boot status or has its command refused |
| `DumpBuffer.ArmedImpliesHeld` | u25n_driver/drivers/net/ethernet/sfc/dump.c:352-489 | Over every run without such a reset, armed firmware implies that the page tree is still allocated |
| `DumpBuffer.ImproperResetIsUnsafe` | u25n_driver/drivers/net/ethernet/sfc/dump.c:352-370 | After any such reset a plain disable frees the buffer and leaves the firmware armed for it |
| `DumpBuffer.ImproperResetIsReachable` | u25n_driver/drivers/net/ethernet/sfc/dump.c:458-489 | Enabling, a reset whose command fails, and disabling is such a run |
| `DumpBuffer.SetIsDone` | u25n_driver/drivers/net/ethernet/sfc/dump.c:429-489 | When setting a flag succeeds, with which error it fails otherwise, and what it leaves in each case |
| `DumpBuffer.EntriesDiffer` | u25n_driver/drivers/net/ethernet/sfc/dump.c:310-317 | No two pages are entered in the same entry of the same indirection page |
| `DumpBuffer.EnterKeepsLinks` | u25n_driver/drivers/net/ethernet/sfc/dump.c:310-317 | Entering one page keeps every entry made before it |
| `DumpBuffer.LevelFits` | u25n_driver/drivers/net/ethernet/sfc/dump.c:310-317 | Every index the populating loops use is inside the page array |
| `DumpBuffer.DumpData.Dimension` | u25n_driver/drivers/net/ethernet/sfc/dump.c:265-274 | The sizing loop computes total_pages and mli_depth |
| `DumpBuffer.DumpData.Populate` | u25n_driver/drivers/net/ethernet/sfc/dump.c:304-320 | The populating loops link every page to its parent, touch nothing else, and end at the root |
| `DumpBuffer.DumpData.AllocPages` | u25n_driver/drivers/net/ethernet/sfc/dump.c:293-302 | The allocation loop gets all pages, or stops at the first failure with every page it got in the table |
| `DumpBuffer.DumpData.FreeBuffer` | u25n_driver/drivers/net/ethernet/sfc/dump.c:220-252 | Frees every page the table names exactly once and nothing else, and clears the descriptor |
| `DumpBuffer.DumpData.BuildTree` | u25n_driver/drivers/net/ethernet/sfc/dump.c:304-326 | From allocated pages to a complete tree with its root and depth recorded |
| `DumpBuffer.DumpData.AllocBuffer` | u25n_driver/drivers/net/ethernet/sfc/dump.c:254-329 | Allocates at most once; a failure at any point gives everything back; other memory is untouched |
| `DumpBuffer.DumpData.Set` | u25n_driver/drivers/net/ethernet/sfc/dump.c:429-489 | Enable, disable, force and unknown flags have exactly the modelled effect under every combination of failures; memory of others is untouched |
| `DumpBuffer.DumpData.Reset` | u25n_driver/drivers/net/ethernet/sfc/dump.c:352-370 | Likewise the reset path |
| `DumpBuffer.DumpData.FirmwareReachesEveryPage` | u25n_driver/drivers/net/ethernet/sfc/dump.c:304-326 | Whenever armed firmware is safe, the root and depth it was last given lead it to every data page, all of them allocated |
| `AxiTx.EverySkbFreedOnce` | u25n_mcdma_driver/xilinx_axienet_main.c:795-840 | Over all interleavings of transmit, completion, reaping and resets at harmless points, every accepted packet is freed exactly once or still attached, and since the last reset in the order of acceptance |
| `AxiTx.FreedOnlyWhenCompleted` | u25n_mcdma_driver/xilinx_axienet_main.c:795-840 | In every reachable state a freed packet had all its descriptors completed by the hardware, and one not freed is still attached to its last descriptor |
| `AxiTx.IdleDescriptorsAreClear` | u25n_mcdma_driver/xilinx_axienet_main.c:884-892 | Descriptors not given to the hardware have clear status and no packet, and reaping never passes what was given |
| `AxiTx.KickedIsReady` | u25n_mcdma_driver/xilinx_axienet_main.c:1191-1259 | Every descriptor given to the hardware and not yet reaped has been written, and its status says whether the hardware is done with it |
| `AxiTx.SpaceIsExact` | u25n_mcdma_driver/xilinx_axienet_main.c:871-895 | The space test is exact for every interleaving with the reaper, and its second test, of a descriptor's status, never fires |
| `AxiTx.NoLostWakeup` | u25n_mcdma_driver/xilinx_axienet_main.c:831-855 | With packets that leave a slot unused and no reset of a stopped queue: a stopped queue whose producer is not about to look again has a descriptor in flight, an interrupt pending, or a reaper that will still wake it |
| `AxiTx.StepKeepsWake` | u25n_mcdma_driver/xilinx_axienet_main.c:1146-1164 | Each step of the stop, recheck and wake protocol keeps that promise, a reset at a harmless point included |
| `AxiTx.OversizedPacketStopsForGood` | u25n_mcdma_driver/xilinx_axienet_main.c:1146-1164 | With nothing in flight, in any reachable state, a packet that needs as many descriptors as the ring has, or more, and no other, leaves the queue stopped, and it stays so after any later steps that do not hand it another packet |
| `AxiTx.OversizedIsNeverAccepted` | u25n_mcdma_driver/xilinx_axienet_main.c:871-895 | Whatever the ring holds, such a packet never fits, and nothing of one is ever written |
| `AxiTx.QuietForGood` | u25n_mcdma_driver/xilinx_axienet_main.c:1146-1164 | A queue that is stopped with nothing going on stays so after any run without a new packet |
| `AxiTx.ResetLosesWakeIff` | u25n_mcdma_driver/xilinx_axienet_dma.c:404-437 | After the error reset a wake is still to come unless the queue is stopped with the reaper asleep and the transmit path not about to look again |
| `AxiTx.ResetKeepsIff` | u25n_mcdma_driver/xilinx_axienet_dma.c:404-437 | A reset, taken as one step at any point of the transmit path and the completion handler, keeps the ring in order if and only if the handler holds no complete status and no cleared descriptor yet to count, the transmit path has written no descriptor, and neither has looked up one other than the first |
| `AxiTx.ResetDuringHandOver` | u25n_mcdma_driver/xilinx_axienet_main.c:1246-1259 | A reset between attaching a packet and ringing the doorbell frees it, and it is then accepted on a descriptor with nothing to send |
| `AxiTx.ResetFrees` | u25n_mcdma_driver/xilinx_axienet_main.c:810-823 | What has been freed once too often after a reset at any point: a packet attached and not handed over, and one that the handler has freed and not yet taken off its descriptor |
| `AxiTx.ResetDuringTurn` | u25n_mcdma_driver/xilinx_axienet_main.c:795-838 | After a reset in the middle of a turn of the reaping loop the handler goes on at slot 1, while hardware and transmit path begin at slot 0 |
| `AxiTx.TurnIsReachable` | u25n_mcdma_driver/xilinx_axienet_main.c:795-838 | Sending and completing one packet reaches such a turn, and the point where its packet is freed but still attached |
| `AxiTx.HandOverIsReachable` | u25n_mcdma_driver/xilinx_axienet_main.c:1191-1259 | Sending one packet reaches such a point |
| `AxiTx.ResetFreesTheRest` | u25n_mcdma_driver/xilinx_axienet_dma.c:404-424 | What the reset frees at any point, walking the array, together with what was freed before, is every accepted packet once, and besides that only a packet attached and not yet handed over, and a second time one that the handler has freed and not yet taken off its descriptor |
| `AxiTx.ArrayIsRotatedLap` | u25n_mcdma_driver/xilinx_axienet_dma.c:404-424 | The array in index order carries the same packets as the ring in order of positions |
| `AxiTx.StepKeeps` | u25n_mcdma_driver/xilinx_axienet_main.c:771-1263 | Every step of producer, hardware and reaper, and a reset at a harmless point, keeps the ring invariant |
| `AxiTx.ReachableInv` | u25n_mcdma_driver/xilinx_axienet_main.c:771-1263 | It holds after every run of such steps on a ring of any power-of-two size |
| `AxiTx.TxQueue.constructor` | u25n_mcdma_driver/xilinx_axienet_dma.c:68-134 | A fresh ring is the initial state |
| `AxiTx.TxQueue.CheckTxBdSpace` | u25n_mcdma_driver/xilinx_axienet_main.c:871-895 | Computes the space test |
| `AxiTx.TxQueue.QueueXmit` | u25n_mcdma_driver/xilinx_axienet_main.c:1135-1263 | Without interference a packet is accepted if it fits, behind the others and kicked, and else only the queue is stopped; what was freed, completed and reaped does not change |
| `AxiTx.TxQueue.ReserveSpace` | u25n_mcdma_driver/xilinx_axienet_main.c:1146-1164 | Without interference, the looking, stopping and looking again are the producer's steps |
| `AxiTx.TxQueue.AddFragment` | u25n_mcdma_driver/xilinx_axienet_main.c:1218-1236 | Advancing the tail with its wrap test and filling the descriptor there is the producer's step |
| `AxiTx.TxQueue.HandOver` | u25n_mcdma_driver/xilinx_axienet_main.c:1236-1259 | Attaching, ringing and advancing are the producer's last steps |
| `AxiTx.TxQueue.FillAndKick` | u25n_mcdma_driver/xilinx_axienet_main.c:1191-1259 | Filling the descriptors and moving the tail register adds exactly this packet behind the others |
| `AxiTx.TxQueue.HardwareCompletes` | u25n_mcdma_driver/xilinx_axienet_main.c:1251-1257 | The hardware completes, in order, what it was given and no more, and raises its interrupt if it completed any |
| `AxiTx.TxQueue.ReapOne` | u25n_mcdma_driver/xilinx_axienet_main.c:796-832 | One turn of the reaping loop frees the attached packet, if any, clears the descriptor and moves on, and changes nothing else |
| `AxiTx.TxQueue.ReadStatus` | u25n_mcdma_driver/xilinx_axienet_main.c:833-839 | Looking up a descriptor and reading its status, which the hardware may have changed in between, says whether one is left to reap |
| `AxiTx.TxQueue.ReapLoop` | u25n_mcdma_driver/xilinx_axienet_main.c:795-840 | The loop reaps everything completed at its last status read, in order, while the hardware goes on; what is accepted and kicked stays, and completing only goes forward |
| `AxiTx.TxQueue.StartXmitDone` | u25n_mcdma_driver/xilinx_axienet_main.c:771-858 | The completion handler reaps and then wakes the queue, and only the reaper's and the hardware's side of the ring changes |
| `AxiTx.TxQueue.ClearDescriptors` | u25n_mcdma_driver/xilinx_axienet_dma.c:404-424 | The clearing loop frees the attached packets in index order and leaves every descriptor clear |
| `AxiTx.TxQueue.ResetRing` | u25n_mcdma_driver/xilinx_axienet_dma.c:404-437 | Wherever the transmit path and the reaper are, the ring part of the error handler does the reset step; the ring is in order again exactly at a harmless point; and what it frees is every packet accepted and not yet freed, and besides one attached and not handed over and one freed but not taken off its descriptor |
| `EventQueues.EventQueue.EvProcess` | u25n_driver/drivers/net/ethernet/sfc/ef10.c:3758-3874 | However the NIC writes during the loads, the loop handles the NIC's events in order, each once; it leaves on an empty slot only if that slot was the first of its last load and at that load all the NIC had written was handled, which is at least all it had written before the call; and otherwise because the budget ran out, at the first receive, MCDI or driver event at which the work reaches the quota, never at another event; it reports the quota then if that is a receive event, and else the work |
| `EventQueues.EventQueue.HandleEvent` | u25n_driver/drivers/net/ethernet/sfc/ef10.c:3805-3869 | One event is cleared, passed and counted, and ends the loop exactly if it exhausts the budget |
| `EventQueues.EventQueue.Peek` | u25n_driver/drivers/net/ethernet/sfc/ef10.c:3774-3800 | The event taken from the private copy is the one at the read pointer, and the copy is reloaded whenever it is of another line |
| `EventQueues.EventQueue.LoadLine` | u25n_driver/drivers/net/ethernet/sfc/ef10.c:3784-3791 | Copying a line word by word while the NIC writes yields events that were written, and says what the first word was |
| `EventQueues.EventQueue.Consume` | u25n_driver/drivers/net/ethernet/sfc/ef10.c:3805-3807 | Clearing the slot and moving on keeps the ring |
| `EventQueues.EventQueue.WriteEvent` | u25n_driver/drivers/net/ethernet/sfc/ef10.c:3774-3800 | The NIC's side: the next event goes to the next slot that was handed back |
| `EventQueues.EventQueue.NicRuns` | u25n_driver/drivers/net/ethernet/sfc/ef10.c:3774-3800 | Any number of such writes |
| `EventQueues.EventQueue.McdiPending` | u25n_driver/drivers/net/ethernet/sfc/ef10.c:3877-3893 | The scan finds an MCDI event if and only if one is waiting, provided a slot is empty or one is |
| `EventQueues.NextLineDiffers` | u25n_driver/drivers/net/ethernet/sfc/ef10.c:3774-3783 | The next line has another base address, by which the copy is known to be stale, if and only if the queue has more than one line, as every queue of at least 512 events has |
| `EventQueues.SameLine` | u25n_driver/drivers/net/ethernet/sfc/ef10.c:3782-3783 | Comparing base addresses recognises the line of the read pointer |
| `EventQueues.LineIsContiguous` | u25n_driver/drivers/net/ethernet/sfc/ef10.c:3784-3791 | The slots of a line follow each other in memory |
| `EventQueues.DrainedMeansBelowQuota` | u25n_driver/drivers/net/ethernet/sfc/ef10.c:3793-3875 | A poll that did not run out of budget reports its work, and less than its quota |
| `EventQueues.OneMore` | u25n_driver/drivers/net/ethernet/sfc/ef10.c:3816-3870 | What one more event does to the work counted and to the budget test |
| `EventQueues.WorkOfEvents` | u25n_driver/drivers/net/ethernet/sfc/ef10.c:3816-3864 | The work: a receive event counts its packets, an MCDI or driver event what its handler returned, an error as one, and others nothing |
| `EventQueues.PollEnds` | u25n_driver/drivers/net/ethernet/sfc/ef10.c:3816-3875 | Where a poll stops and what it reports, in terms of the events; with receive events only, the smaller of the quota and the packets received |
| `RxDecode.RunIsDecoded` | u25n_driver/drivers/net/ethernet/sfc/ef10.c:3426-3585 | Over every run of whole, scattered, merged and aborted completions, the driver rejects no event, rebuilds the hardware's pointer, and passes on exactly the packets the hardware finished or gave up, in order |
| `RxDecode.RunTiles` | u25n_driver/drivers/net/ethernet/sfc/ef10.c:3572-3584 | Delivered and discarded packets partition the descriptor stream: no gap, no overlap |
| `RxDecode.DecodeInvertsEncode` | u25n_driver/drivers/net/ethernet/sfc/ef10.c:3468-3513 | Decoding one event undoes the hardware's encoding of its progress in a few pointer bits |
| `RxDecode.EventDelivers` | u25n_driver/drivers/net/ethernet/sfc/ef10.c:3426-3585 | In slots and bytes: which buffers each kind of completion passes on, with which length, discarded or not, and where the queue goes on |
| `RxDecode.LossIsNoticed` | u25n_driver/drivers/net/ethernet/sfc/ef10.c:3484-3496 | An event after lost ones is rejected, and changes nothing, if and only if the total progress modulo the pointer range is neither 0 nor a possible next fragment, and the event cannot be a merged one |
| `RxDecode.LossTakenForMerged` | u25n_driver/drivers/net/ethernet/sfc/ef10.c:3484-3505 | And if it can, the descriptors of the lost events are passed on as that many received packets |
| `RxDecode.MaskedDifference` | u25n_driver/drivers/net/ethernet/sfc/ef10.c:3468-3469 | The masked difference of a few low bits and a wrapping 32-bit counter is the true distance modulo the pointer range |
| `RxDecode.DescriptorsSeen` | u25n_driver/drivers/net/ethernet/sfc/ef10.c:3468-3469 | What n_descs is for any true progress |
| `RxDecode.SlotOfCounter` | u25n_driver/drivers/net/ethernet/sfc/ef10.c:3577-3578 | The masked 32-bit counter names the slot of the true position |
| `RxDecode.DeliverSingles` | u25n_driver/drivers/net/ethernet/sfc/ef10.c:3576-3582 | The delivery loop over a merged event hands up consecutive descriptors |
| `RxDecode.RxQueue.constructor` | u25n_driver/drivers/net/ethernet/sfc/ef10.c:3310-3328 | A new queue is in step with hardware that has completed nothing |
| `RxDecode.RxQueue.HandleRxAbort` | u25n_driver/drivers/net/ethernet/sfc/ef10.c:3310-3328 | An abort discards the fragments collected so far, once |
| `RxDecode.RxQueue.PassOn` | u25n_driver/drivers/net/ethernet/sfc/ef10.c:3576-3582 | The delivery loop passes on the packets and moves the counter past them |
| `RxDecode.RxQueue.HandleRxEvent` | u25n_driver/drivers/net/ethernet/sfc/ef10.c:3426-3585 | The event handler computes the decoding function, state and packets |
| `RxDoorbell.HardwareUsesBuffersInOrder` | u25n_driver/drivers/net/ethernet/sfc/ef10.c:3211-3236 | However adding, ringing, completing and removing interleave, the hardware fills the buffers in the order they were added, each through a descriptor with its length and its address, and every doorbell value is a multiple of eight |
| `RxDoorbell.StepKeeps` | u25n_driver/drivers/net/ethernet/sfc/ef10.c:3211-3247 | Every step keeps the ring invariant: slots from removed to notified hold the descriptors of their current buffers |
| `RxDoorbell.WriteKeeps` | u25n_driver/drivers/net/ethernet/sfc/ef10.c:3211-3236 | After a write at most seven added buffers are withheld |
| `RxDoorbell.ViewIsExact` | u25n_driver/drivers/net/ethernet/sfc/ef10.c:3225-3229 | The hardware recovers the full write position from the doorbell's ring index: a full ring is never taken for an empty one |
| `RxDoorbell.RingingTwiceIsOnce` | u25n_driver/drivers/net/ethernet/sfc/ef10.c:3743-3746 | Ringing the doorbell again without new buffers changes nothing |
| `RxDoorbell.RoundedCounter` | u25n_driver/drivers/net/ethernet/sfc/ef10.c:3218-3219 | Rounding the wrapped 32-bit counter down to a multiple of eight rounds the true position |
| `RxDoorbell.FillDescribes` | u25n_driver/drivers/net/ethernet/sfc/ef10.c:3220-3225 | The fill loop describes the new positions and disturbs none of the outstanding ones |
| `RxDoorbell.OutstandingAreTold` | u25n_driver/drivers/net/ethernet/sfc/ef10.c:3195-3207 | The descriptors between what was removed and what was notified have the lengths and addresses of their buffers; after every write too |
| `RxDoorbell.LoopEnds` | u25n_driver/drivers/net/ethernet/sfc/ef10.c:3220 | Comparing wrapped counters for equality ends the fill loop at the right position |
| `RxDoorbell.RxRing.constructor` | u25n_driver/drivers/net/ethernet/sfc/ef10.c:3211-3236 | A fresh ring |
| `RxDoorbell.RxRing.AddBuffer` | u25n_driver/drivers/net/ethernet/sfc/rx_common.c:796-842 | Adding a buffer fills the slot behind the last one |
| `RxDoorbell.RxRing.WriteAlways` | u25n_driver/drivers/net/ethernet/sfc/ef10.c:3211-3236 | The fill loop ends, on wrapping counters, and leaves the ring as the write step says |
| `RxDoorbell.RxRing.RxWrite` | u25n_driver/drivers/net/ethernet/sfc/ef10.c:3238-3248 | Skipping the write when the counters agree gives the same state |
| `RxDoorbell.RxRing.RemoveBuffers` | u25n_driver/drivers/net/ethernet/sfc/ef10.c:3576-3582 | Freeing received buffers moves the wrapped counter |
| `AxiRx.BuffersAreConserved` | u25n_mcdma_driver/xilinx_axienet_main.c:1325-1465 | After every interleaving of hardware, poll routine and resets, with resets between turns of the loop, also before the tail write of their poll as long as that write is timely: each buffer ever allocated is owned once, by a descriptor or by the network stack, but for one being replaced; frames are handed up in ring order, unaltered; and the stack's buffers are never written again |
| `AxiRx.ResetKeepsIff` | u25n_mcdma_driver/xilinx_axienet_dma.c:425-437 | A reset, taken as one step at any point of the poll routine, keeps the ring in order if and only if it falls between turns of the loop and no descriptor but the first is looked up |
| `AxiRx.ResetDuringTurn` | u25n_mcdma_driver/xilinx_axienet_main.c:1326-1440 | After a reset inside a turn the poll routine goes on at slot 1, while the hardware begins at slot 0 |
| `AxiRx.ResetWhileHanded` | u25n_mcdma_driver/xilinx_axienet_main.c:1417-1436 | And after one between handing a buffer up and replacing it the hardware may fill the stack's buffer |
| `AxiRx.TurnIsReachable` | u25n_mcdma_driver/xilinx_axienet_main.c:1326-1440 | One frame leads to such a turn |
| `AxiRx.WriteTailKeepsIff` | u25n_mcdma_driver/xilinx_axienet_main.c:1455-1462 | The tail write keeps the invariant if and only if there was no reset since the last replacement or the hardware has filled no more frames since than the number of the slot; otherwise the hardware may go past what was handed up |
| `AxiRx.StaleTail` | u25n_mcdma_driver/xilinx_axienet_main.c:1455-1462 | What the hardware makes of a tail computed before a reset |
| `AxiRx.LateTailIsReachable` | u25n_mcdma_driver/xilinx_axienet_main.c:1297-1465 | A turn, a reset, one new frame: on a ring of any size the tail then written lets the hardware have a slot more than the ring has |
| `AxiRx.HardwareFillsOnlyFree` | u25n_mcdma_driver/xilinx_axienet_main.c:1325-1465 | The hardware never fills a descriptor still unprocessed, nor a buffer that the stack or another descriptor owns |
| `AxiRx.StepKeeps` | u25n_mcdma_driver/xilinx_axienet_main.c:1297-1465 | Every step of hardware and driver keeps the invariant, a reset and a tail write at the right time |
| `AxiRx.TailIsExact` | u25n_mcdma_driver/xilinx_axienet_main.c:1455-1462 | Writing the last replaced descriptor to the tail register lets the hardware go exactly one lap ahead of the driver |
| `AxiRx.TailOfFullRingOverruns` | u25n_mcdma_driver/xilinx_axienet_main.c:1455-1462 | Writing it on a full ring without having replaced anything would let the hardware overrun it: the guard is needed |
| `AxiRx.CompleteMeansWaiting` | u25n_mcdma_driver/xilinx_axienet_main.c:1325-1326 | Between turns, the status test of the loop is true exactly when a frame is waiting |
| `AxiRx.HandUpKeeps` | u25n_mcdma_driver/xilinx_axienet_main.c:1342-1417 | Handing up passes on exactly the oldest waiting frame |
| `AxiRx.RxQueue.constructor` | u25n_mcdma_driver/xilinx_axienet_dma.c:153-173 | Set-up gives every descriptor a buffer of its own |
| `AxiRx.RxQueue.Fill` | u25n_mcdma_driver/xilinx_axienet_main.c:1325-1326 | The hardware's step on the descriptor array |
| `AxiRx.RxQueue.HardwareRuns` | u25n_mcdma_driver/xilinx_axienet_main.c:1325-1326 | Any number of frames may arrive |
| `AxiRx.RxQueue.ReplaceOne` | u25n_mcdma_driver/xilinx_axienet_main.c:1342-1440 | One turn of the loop, on the array |
| `AxiRx.RxQueue.SetTail` | u25n_mcdma_driver/xilinx_axienet_main.c:1455-1462 | The tail write as the hardware takes it |
| `AxiRx.RxQueue.Recv` | u25n_mcdma_driver/xilinx_axienet_main.c:1297-1465 | The receive loop hands up the oldest frames in order, at most its budget, stops early only when none waits or memory ran out, consumes nothing on a failed allocation, and moves the tail only after progress |
| `AxiRx.RxQueue.Poll` | u25n_mcdma_driver/xilinx_axienet_main.c:1478-1542 | The poll routine never exceeds its quota, reports what it handed up, and re-enables interrupts exactly when quota is left; it ends only on its quota, a status not pending or an error, and no round ends with quota and memory left while a frame is waiting |
| `AxiRx.RxQueue.ResetRing` | u25n_mcdma_driver/xilinx_axienet_dma.c:425-437 | Wherever the poll routine is, the error reset does the reset step, keeps every buffer with its descriptor and restarts both sides at slot zero; the ring is in order again exactly if it falls between turns with no descriptor but the first looked up |
| `AxiRx.RxQueue.NextTurn` | u25n_mcdma_driver/xilinx_axienet_main.c:1318-1326 | Looking up the next descriptor while the hardware runs on |
| `AxiRx.RxQueue.ClearStatus` | u25n_mcdma_driver/xilinx_axienet_dma.c:425-433 | The clearing loop |
| `Driverlink.OnBothOrNeither` | u25n_driver/drivers/net/ethernet/sfc/driverlink.c:173-187 | A handle is on its NIC's list if and only if it is on its driver's list, and on no others |
| `Driverlink.OrderIsUnique` | u25n_driver/drivers/net/ethernet/sfc/driverlink.c:165-183 | Priority order with ties by age leaves only one possible list for a set of handles |
| `Driverlink.InsertKeepsOrder` | u25n_driver/drivers/net/ethernet/sfc/driverlink.c:173-183 | Inserting before the first greater priority keeps the list stably sorted and holding exactly the NIC's handles |
| `Driverlink.AttachKeepsLinks` | u25n_driver/drivers/net/ethernet/sfc/driverlink.c:173-185 | Attaching a handle keeps the whole registry consistent, at most one handle per driver and NIC |
| `Driverlink.DetachKeepsLinks` | u25n_driver/drivers/net/ethernet/sfc/driverlink.c:93-102 | Detaching keeps it consistent |
| `Driverlink.WithoutKeepsOthers` | u25n_driver/drivers/net/ethernet/sfc/driverlink.c:93-102 | Unlinking one entry removes it and nothing else |
| `Driverlink.SuspendReversesResume` | u25n_driver/drivers/net/ethernet/sfc/driverlink.c:338-389 | Whichever clients want the one call or the other: the suspended clients that are resumed come, in the order of suspension, in the reverse of the order in which the resumed clients that were suspended are resumed |
| `Driverlink.Registry.AroundReset` | u25n_driver/drivers/net/ethernet/sfc/selftest.c:868-880 | Suspending and then resuming around a reset does so |
| `Driverlink.WantingCommutes` | u25n_driver/drivers/net/ethernet/sfc/driverlink.c:338-388 | Picking the clients with one callback and then those with the other does not depend on the order |
| `Driverlink.WantingReversed` | u25n_driver/drivers/net/ethernet/sfc/driverlink.c:338-362 | Walking a list backwards calls the same clients in reverse |
| `Driverlink.FirstAcceptorDecides` | u25n_driver/drivers/net/ethernet/sfc/driverlink.c:391-418 | The result of an event is that of the first client in list order that accepts it, capped by the budget, or -EINVAL if none does |
| `Driverlink.Registry.constructor` | u25n_driver/drivers/net/ethernet/sfc/driverlink.c:22-25 | An empty registry |
| `Driverlink.Registry.PublishHandle` | u25n_driver/drivers/net/ethernet/sfc/driverlink.c:317-326 | The NIC sees a request exactly when the count is zero, and the count goes up exactly if it was not or the NIC grants it; calls are counted, never overwritten |
| `Driverlink.Registry.UnpublishHandle` | u25n_driver/drivers/net/ethernet/sfc/driverlink.c:328-334 | The NIC sees a return exactly when the last publication goes; with none nothing happens |
| `Driverlink.Registry.BlockKernel` | u25n_driver/drivers/net/ethernet/sfc/driverlink.c:420-431 | Likewise for each kind of kernel block |
| `Driverlink.Registry.UnblockKernel` | u25n_driver/drivers/net/ethernet/sfc/driverlink.c:434-446 | And for unblocking, where a count of zero changes nothing |
| `Driverlink.Registry.ClientCalls` | u25n_driver/drivers/net/ethernet/sfc/driverlink.c:317-446 | Any sequence of calls through a handle keeps the ledger: for each resource of a handle the NIC has granted as often as it got back, plus once while the client's count is not zero; other handles' calls are untouched |
| `Driverlink.CallKeepsLedger` | u25n_driver/drivers/net/ethernet/sfc/driverlink.c:317-447 | The same for one call |
| `Driverlink.PublicationsAreCounted` | u25n_driver/drivers/net/ethernet/sfc/driverlink.c:317-334 | After any calls through a handle that never give back more than was taken, the publication count is the successful requests less the returns, and the NIC holds the publication exactly while that is not zero |
| `Driverlink.BlocksAreCounted` | u25n_driver/drivers/net/ethernet/sfc/driverlink.c:420-446 | The same for each kind of block |
| `Driverlink.NestedIsSilent` | u25n_driver/drivers/net/ethernet/sfc/driverlink.c:317-446 | A further request and a return by a client that has the resource reach the NIC not at all and leave the count |
| `Driverlink.BookedAllGrows` | u25n_driver/drivers/net/ethernet/sfc/driverlink.c:317-447 | Calls through one handle only add to that handle's part of the NIC's book |
| `Driverlink.Registry.TryAddDevice` | u25n_driver/drivers/net/ethernet/sfc/driverlink.c:115-198 | Attaches the driver exactly when it is supported, memory and publication succeed and its probe accepts; the NIC sees exactly the first requests and last returns among the publication, the probe's calls and the undoing, and the counts are what these calls make; for a refused handle the NIC has got back all it granted if and only if the probe left at most one publication and no blocks, and otherwise something is still out |
| `Driverlink.X2Devices` | u25n_driver/drivers/net/ethernet/sfc/driverlink.c:126-133 | Which devices a client must support specially |
| `Driverlink.Registry.TryHandle` | u25n_driver/drivers/net/ethernet/sfc/driverlink.c:133-198 | The part once memory is had |
| `Driverlink.Registry.ProbeHandle` | u25n_driver/drivers/net/ethernet/sfc/driverlink.c:147-163 | The probing part, with its undoing: what it does to the handle's counts and to the NIC, and what it leaves when refused |
| `Driverlink.CallsSplit` | u25n_driver/drivers/net/ethernet/sfc/driverlink.c:317-446 | Calls made in two stretches have the effect of all of them in a row |
| `Driverlink.Registry.FreeHandle` | u25n_driver/drivers/net/ethernet/sfc/driverlink.c:191-198 | A freed handle is settled with the NIC if and only if its counts are zero; otherwise the NIC still holds something for it |
| `Driverlink.LedgerForgets` | u25n_driver/drivers/net/ethernet/sfc/driverlink.c:104-110 | The same, and that the ledger stays right without it |
| `Driverlink.Registry.Attach` | u25n_driver/drivers/net/ethernet/sfc/driverlink.c:173-185 | Puts the handle behind the last one of its priority, and last on the driver's list |
| `Driverlink.Registry.FindPlace` | u25n_driver/drivers/net/ethernet/sfc/driverlink.c:173-183 | The search finds the insertion point |
| `Driverlink.Registry.DelDevice` | u25n_driver/drivers/net/ethernet/sfc/driverlink.c:70-110 | Removes one handle from both lists; the NIC sees the requests of its remove routine, and afterwards has got back all it ever granted to the handle, whatever that routine did; nothing changes for other handles |
| `Driverlink.Registry.RemoveClient` | u25n_driver/drivers/net/ethernet/sfc/driverlink.c:82-85 | The remove routine and the return of every publication |
| `Driverlink.Registry.ForgetHandle` | u25n_driver/drivers/net/ethernet/sfc/driverlink.c:104-109 | The return of every block |
| `Driverlink.Registry.DropPublications` | u25n_driver/drivers/net/ethernet/sfc/driverlink.c:84-85 | The loop brings the publication count to zero |
| `Driverlink.Registry.DropBlocks` | u25n_driver/drivers/net/ethernet/sfc/driverlink.c:104-107 | The loops bring every block count to zero |
| `Driverlink.Registry.RegisterDriver` | u25n_driver/drivers/net/ethernet/sfc/driverlink.c:223-259 | A driver is refused with -EPERM and no effect, or listed and tried on the NICs in list order: attached to exactly those for which device, memory, publication and probe allow it, with handles made in that order; what handles had before does not change |
| `Driverlink.Registry.RegisterNic` | u25n_driver/drivers/net/ethernet/sfc/driverlink.c:277-289 | A NIC is listed and every driver tried on it, in the order in which the drivers registered |
| `Driverlink.Registry.UnregisterDriver` | u25n_driver/drivers/net/ethernet/sfc/driverlink.c:202-219 | All handles of the driver are removed, oldest first, and no others; the NICs have got back all they granted to them, and what other handles hold does not change |
| `Driverlink.Registry.UnregisterNic` | u25n_driver/drivers/net/ethernet/sfc/driverlink.c:262-273 | All handles of the NIC are removed those of greater priority value first, and among equals the younger first, and no others; it has got back all it granted to them, and what other handles hold does not change |
| `Driverlink.Registry.ResetSuspend` | u25n_driver/drivers/net/ethernet/sfc/driverlink.c:338-362 | Exactly the clients with that callback are called, those of greater priority value first, and among equals the younger first |
| `Driverlink.Registry.ResetResume` | u25n_driver/drivers/net/ethernet/sfc/driverlink.c:366-389 | Exactly the clients with that callback are called, in the opposite order |
| `Driverlink.WantingInOrder` | u25n_driver/drivers/net/ethernet/sfc/driverlink.c:338-389 | Those called come in priority order, and among equals in order of age |
| `Driverlink.Registry.HandleEvent` | u25n_driver/drivers/net/ethernet/sfc/driverlink.c:391-418 | The loop computes that result |
| `Driverlink.OrderOneMore` | u25n_driver/drivers/net/ethernet/sfc/driverlink.c:284-286 | Trying one more pair keeps the order in which handles are made |
| `Driverlink.Registry.DevFromNetdev` | u25n_driver/drivers/net/ethernet/sfc/driverlink.c:304-314 | The lookup finds the driver's handle for a network device if there is one, and it is the only one |
| `Bitfield.ExtractIsField` | u25n_driver/drivers/net/ethernet/sfc/bitfield.h:136-179 | Extracting reads exactly the field's bits, for a field anywhere in the word and across element boundaries, with 64- or 32-bit elements, on hosts of either byte order |
| `Bitfield.PopulateIsFields` | u25n_driver/drivers/net/ethernet/sfc/bitfield.h:334-357 | Populating writes every bit: a field's value where there is a field, zero elsewhere |
| `Bitfield.PopulateFormsAgree` | u25n_driver/drivers/net/ethernet/sfc/bitfield.h:334-357 | The 64- and 32-bit forms give the same bytes on either kind of host |
| `Bitfield.PopulateThenExtract` | u25n_driver/drivers/net/ethernet/sfc/bitfield.h:334-357 | Every populated field reads back, in either form, on either host |
| `Bitfield.SetEveryBit` | u25n_driver/drivers/net/ethernet/sfc/bitfield.h:533-582 | Setting, for every value: the field takes the value's low bits; excess bits are or'ed in above the field as far as its element reaches |
| `Bitfield.SetReplacesIff` | u25n_driver/drivers/net/ethernet/sfc/bitfield.h:533-582 | Setting replaces the field and nothing else if and only if no excess bit of the value meets a zero bit above the field |
| `Bitfield.SetThenExtract` | u25n_driver/drivers/net/ethernet/sfc/bitfield.h:533-582 | For values that fit: only the field changes, both forms and hosts agree, and extracting gives the value back |
| `Bitfield.SwapTwice` | u25n_driver/drivers/net/ethernet/sfc/bitfield.h:146-154 | Swapping bytes twice changes nothing |
| `Bitfield.InsertedFields` | u25n_driver/drivers/net/ethernet/sfc/bitfield.h:255-326 | The or of the inserted fields holds exactly the fields' bits of one element |
| `Bitfield.MergeLittle` | u25n_driver/drivers/net/ethernet/sfc/bitfield.h:539-582 | Masking and merging commute with byte order |
| `Bitfield.StoreElement` | u25n_driver/drivers/net/ethernet/sfc/bitfield.h:86-104 | Assigning one element of the union |
| `Bitfield.Populate` | u25n_driver/drivers/net/ethernet/sfc/bitfield.h:334-357 | Populating in place gives the fields' bits |
| `Bitfield.Set` | u25n_driver/drivers/net/ethernet/sfc/bitfield.h:539-582 | Setting in place; a value that fits changes only the field |
| `XilinxTable.Walker.WalkTable` | u25n_driver/drivers/net/ethernet/sfc/ef100.c:185-260 | The recursive walk of a finite acyclic table succeeds if and only if the entries in preorder are all well formed, name at most one window in all, and every mapping works; then the BAR is the one it started on, the window is the one named, and what was read is exactly the preorder, which goes from place to place as the bytes say; on failure it is a beginning of it |
| `XilinxTable.Walker.ParseContinueEntry` | u25n_driver/drivers/net/ethernet/sfc/ef100.c:113-179 | A continuation maps a foreign BAR, walks the sub-table and maps the old BAR again; the exact condition for success; a foreign sub-table is refused if a header at 16 times its offset field does not fit, and followed at that byte otherwise |
| `XilinxTable.Walker.HandleEntry` | u25n_driver/drivers/net/ethernet/sfc/ef100.c:209-246 | What each kind of entry must satisfy |
| `XilinxTable.Walker.ParseEf100Entry` | u25n_driver/drivers/net/ethernet/sfc/ef100.c:71-101 | A window entry is refused if a window is known already or its BAR is bad |
| `XilinxTable.Walker.ParseXilinxCap` | u25n_driver/drivers/net/ethernet/sfc/ef100.c:289-357 | One table in a mapping of its own, unmapped afterwards; it begins at 16 times the low offset, plus 2^32 times the high one if the capability has it |
| `XilinxTable.Walker.FindFuncCtrlWindow` | u25n_driver/drivers/net/ethernet/sfc/ef100.c:364-426 | All vendor capabilities together: success if and only if all tables are good and name exactly one window, or there is no capability at all |
| `XilinxTable.LatestIsTheOne` | u25n_driver/drivers/net/ethernet/sfc/ef100.c:97-99 | When one entry names a window, that window is the result |
| `XilinxTable.GoodCat` | u25n_driver/drivers/net/ethernet/sfc/ef100.c:185-260 | A walk through two stretches is good exactly when the first is, and the second is after it |
| `XilinxTable.EntryIsGood` | u25n_driver/drivers/net/ethernet/sfc/ef100.c:209-257 | One entry with its sub-table: the checks of the code are the declarative ones |
| `XilinxTable.ContinuesIff` | u25n_driver/drivers/net/ethernet/sfc/ef100.c:117-151 | In numbers: when a continuation is followed |
| `XilinxTable.WellFormedIff` | u25n_driver/drivers/net/ethernet/sfc/ef100.c:185-257 | In numbers: what every entry of a good walk satisfies |
| `XilinxTable.CapStartIff` | u25n_driver/drivers/net/ethernet/sfc/ef100.c:289-340 | In numbers: when a capability is skipped, refused or taken up, the unsigned comparison for a BAR shorter than a header included |
| `XilinxTable.TableIsWalked` | u25n_driver/drivers/net/ethernet/sfc/ef100.c:113-257 | The walk place by place, with the places to come on a stack: an entry is followed by the place its size further on, unless it is the last, and a continuation first by the place its BAR and 16 times its offset field name; the preorder of every well-formed table is such a walk |
| `XilinxTable.NextPlace` | u25n_driver/drivers/net/ethernet/sfc/ef100.c:122-127 | In it the next thing read after a continuation is 16 times its offset field into its BAR |
| `XilinxTable.GoodIsWalked` | u25n_driver/drivers/net/ethernet/sfc/ef100.c:185-257 | So is what a good walk adds to the log, from the place it starts at |
| `XilinxTable.ChainFitsBar` | u25n_driver/drivers/net/ethernet/sfc/ef100.c:209-257 | Entries are at least a header apart, so a chain is no longer than its BAR |
| `XilinxTable.ReadsInsideIff` | u25n_driver/drivers/net/ethernet/sfc/ef100.c:113-257 | For a table that starts inside its BAR, every read of a walk that succeeds, 4, 8, 12 or 16 bytes an entry, is inside if and only if every sub-table in the same BAR starts inside it and every entry that the walk does not move on from has all it reads inside |
| `XilinxTable.LogInsideIff` | u25n_driver/drivers/net/ethernet/sfc/ef100.c:113-257 | For any walk, also one that fails, what it has read is inside if and only if the same holds of every entry it went on from, and the last is read inside |
| `XilinxTable.ReadSoFarInsideIff` | u25n_driver/drivers/net/ethernet/sfc/ef100.c:113-257 | The same of any beginning of the preorder |
| `XilinxTable.LastEntryOverhangs` | u25n_driver/drivers/net/ethernet/sfc/ef100.c:71-77 | A window entry last in its BAR with room for its header only is read past the end |
| `XilinxTable.StartInsideIff` | u25n_driver/drivers/net/ethernet/sfc/ef100.c:289-357 | The check of a capability's offset puts the first header inside if and only if it leaves room for it |
| `XilinxTable.Walker.HandleNext` | u25n_driver/drivers/net/ethernet/sfc/ef100.c:209-257 | One entry and the move to the next: what is read is the next stretch of the preorder |
| `XilinxTable.WindowOffsetExactIff` | u25n_driver/drivers/net/ethernet/sfc/ef100.c:76-77 | The window offset, shifted as an unsigned 32-bit number, is right if and only if it is below 4 GiB |
| `ViChannels.AdjustedIsGreatest` | u25n_driver/drivers/net/ethernet/sfc/ef100_netdev.c:246-282 | The redistribution fits the budget and is the lexicographically greatest vector not above the request that does, XDP channels all or nothing |
| `ViChannels.AdjustedIsCovered` | u25n_driver/drivers/net/ethernet/sfc/ef100_netdev.c:54-83 | Afterwards the driver's own demand is covered by what it was granted |
| `ViChannels.DemandIsLeast` | u25n_driver/drivers/net/ethernet/sfc/ef100_netdev.c:54-83 | The demand is the least number that gives a VI to each RX channel, and one to each TX queue, those of XDP channels included if they transmit |
| `ViChannels.CostInVis` | u25n_driver/drivers/net/ethernet/sfc/ef100_netdev.c:246-282 | What the redistribution counts |
| `ViChannels.EnoughIsUnchanged` | u25n_driver/drivers/net/ethernet/sfc/ef100_netdev.c:246-282 | What fits is not changed, and doing it twice is doing it once |
| `ViChannels.ShareIsGreatest` | u25n_driver/drivers/net/ethernet/sfc/ef100_netdev.c:254-261 | Rounding the share down gives the greatest number of channels |
| `ViChannels.Nic.AdjustChannels` | u25n_driver/drivers/net/ethernet/sfc/ef100_netdev.c:246-282 | The fields rewritten one after another while the budget shrinks are that vector |
| `ViChannels.Nic.AllocVis` | u25n_driver/drivers/net/ethernet/sfc/ef100_netdev.c:54-83 | When the answer counts as "try again" |
| `ViChannels.Nic.NetAlloc` | u25n_driver/drivers/net/ethernet/sfc/ef100_netdev.c:284-330 | The retry loop: return code, number of passes, VIs granted, channel counts and limit are those of the loop's passes taken one by one, whatever the environment does in each |
| `ViChannels.Nic.OnePass` | u25n_driver/drivers/net/ethernet/sfc/ef100_netdev.c:306-330 | One pass: what it asks for, and when it adjusts the channels and says try again |
| `ViChannels.PassesTaken` | u25n_driver/drivers/net/ethernet/sfc/ef100_netdev.c:284-330 | How many passes the loop takes: one for each that is told to try again with nothing granted, and then one more, or two exactly if the grant is at least the minimum and less than the channels of that moment and the clients' share need; a failure ends it at once |
| `ViChannels.AllocatedIsCovered` | u25n_driver/drivers/net/ethernet/sfc/ef100_netdev.c:284-330 | Success in one pass means VIs for all channels and the clients' share, or fewer than the minimum; after a short grant the channels are cut to it and their demand is covered, unless the interrupt probe of the second pass counts them anew |
| `ViChannels.RepeatLeavesNone` | u25n_driver/drivers/net/ethernet/sfc/ef100_netdev.c:246-282 | Being told to try again with nothing granted takes all channels away, but for XDP channels without queues |
| `ViChannels.Nic.ProbeInterrupts` | u25n_driver/drivers/net/ethernet/sfc/efx_channels.c:585-695 | What the interrupt probe does to the channel counts |
| `ViChannels.SingleIsCovered` | u25n_driver/drivers/net/ethernet/sfc/efx_channels.c:659-695 | Falling back to a single interrupt never asks for more than the least that is granted |
| `PioBuffers.SlicesFitIff` | u25n_driver/drivers/net/ethernet/sfc/ef10.c:918-925 | Every channel's slice lies inside one buffer if and only if the slice size divides the buffer size or one buffer is enough for all channels |
| `PioBuffers.SlicesDisjoint` | u25n_driver/drivers/net/ethernet/sfc/ef10.c:918-925 | Different channels never share a byte of a buffer |
| `PioBuffers.BuffersSuffice` | u25n_driver/drivers/net/ethernet/sfc/ef10.c:1101-1108 | The number of buffers asked for covers every channel's index and is within the hardware's number |
| `PioBuffers.StartIsMapped` | u25n_driver/drivers/net/ethernet/sfc/ef10.c:1136-1153 | The write-combining mapping begins no later than the first buffer, for 4K pages and for pages of whole VIs |
| `PioBuffers.SliceIsMapped` | u25n_driver/drivers/net/ethernet/sfc/ef10.c:1234-1238 | Every slice is written inside the write-combining mapping |
| `PioBuffers.LinkPiobufs` | u25n_driver/drivers/net/ethernet/sfc/ef10.c:873-982 | Whether the buffers are there or have been given back: linking succeeds exactly if the firmware links every VI of the write mapping and no queue finds the network down; then each queue has a link unless refused, and the firmware's links are the queues' own, but for the queue that shares the first VI. If a VI cannot be linked nothing is; if a queue finds the network down, exactly the queues before it that were not refused keep their links, and of the VIs of the write mapping only those below that queue's buffer are unlinked |
| `PioBuffers.StrandedIff` | u25n_driver/drivers/net/ethernet/sfc/ef10.c:946-982 | Once a queue has found the network down, queues keep links to buffers that the caller gives back if and only if one before it was not refused |
| `PioBuffers.LinkedQueues` | u25n_driver/drivers/net/ethernet/sfc/ef10.c:873-982 | With all buffers there: every link is inside its buffer and the mapping, queues of different channels share no byte, and what is written at a queue's address goes to the buffer its own VI is linked to, if and only if no VI that queues are written through is taken away from its buffer |
| `PioBuffers.EnoughVisLinkWell` | u25n_driver/drivers/net/ethernet/sfc/ef10.c:873-982 | With a VI for each TX queue that is so |
| `PioBuffers.UnbackedIff` | u25n_driver/drivers/net/ethernet/sfc/ef10.c:923-930 | Once linking has completed: a queue has a link with no buffer linked to its VI if and only if fewer VIs were granted than all buffers need and some queue has the first VI of the write mapping; it is that queue |
| `PioBuffers.UnbackedLink` | u25n_driver/drivers/net/ethernet/sfc/ef10.c:1196-1206 | Sixteen queues and sixteen VIs are such a case |
| `PioBuffers.LinkChannel` | u25n_driver/drivers/net/ethernet/sfc/ef10.c:907-968 | The queues of one channel, up to the first that finds the network down |
| `PioBuffers.LinkQueue` | u25n_driver/drivers/net/ethernet/sfc/ef10.c:911-966 | One queue: the one whose VI starts the mapping is linked already |
| `PioBuffers.LinkWriteVis` | u25n_driver/drivers/net/ethernet/sfc/ef10.c:885-905 | The first loop links VI by VI and takes all back at a failure |
| `PioBuffers.LinkingOneMore` | u25n_driver/drivers/net/ethernet/sfc/ef10.c:911-966 | One more queue keeps the firmware's and the queues' links in agreement |
| `PioBuffers.BugFiresIff` | u25n_driver/drivers/net/ethernet/sfc/ef10.c:923-930 | The BUG_ON for the queue that shares the first VI fires if and only if some queue has that VI and its channel's slice is not in buffer 0 |
| `PioBuffers.EnoughVisNeverBug` | u25n_driver/drivers/net/ethernet/sfc/ef10.c:923-930 | With a VI for each TX queue it never fires, for 4K pages and for pages of whole VIs, and only the last queue can share that VI |
| `PioBuffers.SharedViKeepsBuffer` | u25n_driver/drivers/net/ethernet/sfc/ef10.c:923-930 | Every VI of the write mapping keeps its own buffer if and only if every linked queue whose number is among them belongs to the buffer of that VI |
| `PioBuffers.ViKeepsBufferIff` | u25n_driver/drivers/net/ethernet/sfc/ef10.c:923-930 | The same for one VI |
| `PioBuffers.ViTakenAway` | u25n_driver/drivers/net/ethernet/sfc/ef10.c:923-930 | With sixteen queues and fourteen VIs for them, VI 14 ends up linked to another buffer than the one written through it |
| `PioBuffers.BugFiresWithFour` | u25n_driver/drivers/net/ethernet/sfc/ef10.c:923-930 | And with four VIs the BUG_ON fires |
| `PioBuffers.NumbersDiffer` | u25n_driver/drivers/net/ethernet/sfc/efx_channels.c:1223-1251 | No two queues have the same VI |
| `PioBuffers.NumbersCover` | u25n_driver/drivers/net/ethernet/sfc/efx_channels.c:1223-1251 | Every VI below the total is some queue's |
| `PioBuffers.SwapIsXor` | u25n_driver/drivers/net/ethernet/sfc/efx_channels.c:1244-1250 | Flipping the low bit of the number swaps queues within their channel |
| `PioBuffers.ExactSlices` | u25n_driver/drivers/net/ethernet/sfc/ef10.c:918-925 | Dividing byte positions is dividing slice numbers |
| `PioBuffers.LinkInBytes` | u25n_driver/drivers/net/ethernet/sfc/ef10.c:918-960 | Slices follow each other through the buffers from the last channel down, and a queue writes 4K and its offset into the VI of its buffer |
| `PioBuffers.MappingsInBytes` | u25n_driver/drivers/net/ethernet/sfc/ef10.c:1143-1162 | The two mappings are the least whole pages for what they must hold, and where the second one's VIs begin |
| `PioBuffers.FewestBuffers` | u25n_driver/drivers/net/ethernet/sfc/ef10.c:1101-1108 | No fewer buffers would do |

## Left out

- Memory barriers and caches: the steps of a protocol are taken to be sequentially consistent.
- Register access, MCDI transport, DMA mapping, PCI and allocation calls: their results are arbitrary; a firmware call that fails is taken to have had no effect.
- UDP tunnels: the early return without the VXLAN_NVGRE capability, the push at driver unload, detaching the net device around a firmware reset, and the wait for a reboot.
- UDP tunnels: the warning threshold on reference counts and the names printed for tunnel types.
- Event queue: the other event types' handlers, which only return how much work they did, and the read-pointer acknowledgement.
- RX decoding: checksum and class flags, statistics, pending resets, and the queue label; `bad` stands for an Ethernet checksum error that is not forwarded.
- RX doorbell: recycling of buffers, which refills a slot just before the removed count moves, is modelled as happening just after it; the choice of batch sizes is left to the caller, below a limit smaller than the ring.
- Dump: `efx_dump_fini`, which frees the buffer without disarming the firmware; the contents of dump headers and `efx_dump_get_data`.
- AXI TX: time stamping, checksum offload fields, the bounce buffers of hardware without DRE, and multi-queue and TSN selection; packets shorter than the minimum.
- The error reset: its walk over the descriptors is one step of the model; nothing is stated about steps of transmit, reaping or polling in the middle of that walk, in `AxiTx.TxQueue.ResetRing` and `AxiRx.RxQueue.ResetRing` either.
- AxiTx.EverySkbFreedOnce: runs are those whose resets fall at harmless points; the driver does not ensure that, and what happens elsewhere is AxiTx.ResetKeepsIff and AxiTx.ResetDuringHandOver.
- AxiTx.ReachableInv: likewise for such runs.
- AxiTx.StepKeeps: likewise, a reset elsewhere being no step of the model's runs.
- AxiTx.TxQueue.ReserveSpace: its contract is about no reaper between the looks; the lemmas about runs have one.
- AxiTx: the stores into one descriptor are one step, as are the reads of the space test, and the tail register is taken to be written with the tail index of that moment.
- AxiRx.StepKeeps: resets fall between turns and a tail write is timely; AxiRx.ResetKeepsIff and AxiRx.WriteTailKeepsIff say what else they do.
- AxiRx.BuffersAreConserved: runs are those of such steps, which the driver does not ensure; the stores that refill a descriptor are one step.
- AxiTx.TxQueue.QueueXmit: its contract is about a call that nothing interrupts; what interleaving does is stated by the lemmas about runs.
- AXI RX: time stamping, checksum results, the netlink and EMCDI packet handlers, and a set-up that runs out of memory half way, which fails as a whole.
- AXI: the multi-channel DMA error handler and `ll_temac_main.c`, which keep other invariants or none.
- AxiRx.RxQueue.Poll: given a finite list of status readings, so that an interrupt that never goes away is not modelled.
- Driverlink: duration warnings, pausing NAPI around list removal, and `netdev_is_ours`; all list operations run under one lock.
- Driverlink: registering a driver or NIC that is registered already, which the code does not allow.
- Bitfield: fields wider than one element in extract and set, and values that do not fit in populate, for which the masks of the code are not meant.
- Xilinx tables: offsets beyond 2 GiB, which the code truncates to `int` before each read, and tables with cycles, on which the recursion does not end.
- VI sharing: unsigned overflow of channel counts, how MSI-X vectors are shared out when there are too few (the counts that come of it are arbitrary), channel set-up, opening a second time or while disabled, and remapping the BAR afterwards.
- ViChannels.Nic.ProbeInterrupts: the counts that come of a recount are arbitrary, see above.
- PioBuffers.LinkPiobufs: the buffers' handles are their numbers, also those of buffers given back, on which the firmware's answers are arbitrary.
- MAC address changes, NVRAM partitions, statistics, licensing, ethtool, sysfs and debugfs: long but shallow.
- `xilinx_emaclite.c`: its aligned read does not advance its pointers in the tail loop, so no round trip holds for lengths that are not a multiple of 4.
- `xilinx_tsn_shaper.c`: reading back a gate list in two-queue mode does not return what was set.
