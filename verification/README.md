# Gunyah drivers: a model and its proofs

A Dafny model of the hard parts of the Linux drivers for the Gunyah hypervisor, with proofs about every input, every run
and every reachable state. Hypercalls, the Resource Manager (RM) and `qcom_scm_assign_mem` are the environment: they
answer as they like, within what each module states. `dafny verify dfyconfig.toml` checks the whole project.

Concurrent code is a state machine whose steps are cut wherever another CPU can get in between; what is proved holds for
every interleaving. Code that updates things in place is also written as classes and methods with loops, each method
proved equal to the step or function it implements.

| file | part of the drivers |
|---|---|
| `Common`, `Bytes`, `Errno`, `RpcWire` | small helpers, little-endian bytes, error numbers, the RPC message format |
| `RpcSend`, `RpcReceive`, `RpcRoundTrip` | fragmenting requests, reassembling replies and notifications, and that the two undo each other |
| `RpcCalls`, `RpcCallsSafety` | `gh_rm_call` from many threads at once |
| `MemRequest`, `MemShare`, `MemAccept` | memparcel requests: byte layout, one call plus appends, the gathering accept protocol |
| `MsgQueue` | the flags `tx_full` and `rx_empty` and the sleepers behind them |
| `ProxySched` | the vCPU thread, its wakeups, the watchdog and the wakeup source |
| `VirtioEvents`, `BufferShare` | the virtio backend's event words, and buffer sharing with rollback |
| `IrqLend` | the interrupt lending table |
| `VmLifecycle`, `SharedMemory` | a VM from creation to destruction, and memory ownership |
| `MetadataPlacement` | where a secure VM's metadata goes in its firmware region |
| `RegionMap` | mapping a buffer made of guest memory regions |

## Where the code does less than one would hope

Each of these is a proved statement about the code as it is, with the exact condition under which the hoped-for
property holds.

- The payload limit of `gh_rm_send_request` is checked on a count modulo 2^32, so a payload that needs 2^32 + 1 messages
  is accepted as one message (`RpcSend.AcceptedExactly`, `RpcSend.OversizeAcceptedExample`).
- The receive loop faults on exactly two kinds of message: a reply that matches no waiting call or is shorter than its
  header, and a continuation of a series that began without payload (`RpcReceive.FaultExactly`). Both are shown from the
  initial state (`RpcReceive.ShortReplyThenContinuation`, `RpcReceive.StrayReply`).
- The allocation of a memory request is as long as what is written if and only if there are at most 65535 ACL entries
  (`MemRequest.AllocationMatches`).
- After VM exit, a wakeup leaves the vCPU thread able to block again if and only if it finds the thread between its test
  of `is_active` and its clearing of `abort_sleep`, with no signal pending (`ProxySched.ExitWakeupSpentExactly`;
  `ProxySched.ExitWakeupCanBeSpent` is such a run). Anywhere else the thread never blocks again and each of its steps
  brings it closer to its return (`ProxySched.LeavesAfterExit`).
- `cur_event` of a virtio device is read without the lock. After VM exit a waiter reports `EVENT_APP_EXIT` if and only if
  no other waiter is inside its locked section at that moment; otherwise it reports 0 (`VirtioEvents.ExitIsReported`,
  `VirtioEvents.ExitCanBeMissed`).
- `gh_irq_reclaim`, `gh_irq_accept` and `gh_irq_release` test and write the state without the lock. Every return from
  ACCEPTED to NONE passes through RELEASED exactly when no successful reclaim has, between its test and its write, an
  acceptance that is not released again (`IrqLend.LeavesThroughReleasedExactly`), and claims and reclaims balance in
  exactly the runs in which no accept or release writes to an entry that has become NONE (`IrqLend.BalancedExactly`).
  `IrqLend.RaceExample` shows both failing.
- RM's status reports are taken without `vm_lock`, so `gh_rm_vm_start` can be called after RM has reported RESET. It is
  called in READY if and only if the last report since the tests of that run ioctl, if any, is not RESET
  (`VmLifecycle.StartsInReadyExactly`, `VmLifecycle.StartInResetExample`).
- A vCPU's descriptor is installed before the reference it stands for is taken. The VM is destroyed exactly with its last
  file in exactly the runs in which no vCPU file is released inside that window leaving only the VM's file
  (`VmLifecycle.DestroyedWithLastFile`). In exactly the others the freed VM can still be acted on
  (`VmLifecycle.UsedAfterFreeExactly`, `VmLifecycle.EarlyDestructionExample`).
- The slot loop of `gh_destroy_vm` ends if and only if the occupied slots have no gap before them
  (`VmLifecycle.DestroyLoopHalts`).
- `gh_provide_shmem`, refused by RM, returns 0 if and only if the rollback works; the region then has the owners of the
  source list again (`SharedMemory.Region.Provide`).
- Overlapping segments can reach past the metadata (`MetadataPlacement.NestedSegmentReachesPast`). For headers whose ends
  fit in 32 bits and with some address above zero, no segment does so in any region if and only if no end lies beyond
  both the computed image end and the sum of all sizes (`MetadataPlacement.NeverReachesPastExactly`).

## Model

| member | source | states |
|---|---|---|
| `Bytes.LittleEndianRoundTrip` | drivers/virt/gunyah/gh_rm_drv_private.h:19-32 | decoding the little-endian bytes of a number that fits gives the number back |
| `Bytes.MostSignificantLast` | drivers/virt/gunyah/gh_rm_drv_private.h:19-32 | the most significant byte comes last: one more byte weighs 256 to the number of bytes before it |
| `RpcWire.HeaderRoundTrip` | drivers/virt/gunyah/gh_rm_drv_private.h:19-26 | every field of the 8-byte header, bit fields included, reads back from the bytes; the payload follows it |
| `RpcWire.HeaderLayout` | drivers/virt/gunyah/gh_rm_drv_private.h:19-26 | which bits and bytes each field occupies, as numbers |
| `RpcWire.ReplyRoundTrip` | drivers/virt/gunyah/gh_rm_drv_private.h:29-32 | the same for the 12-byte reply header and its error code |
| `RpcSend.AcceptedSizes` | drivers/virt/gunyah/gh_rm_core.c:576-589 | up to 232 * 2^32 bytes the limit check accepts exactly 1 to 63 * 232 bytes; the empty payload wraps and is refused |
| `RpcSend.AcceptedExactly` | drivers/virt/gunyah/gh_rm_core.c:576-589 | for every size_t: accepted iff the sum does not wrap and the message count modulo 2^32 is 1 to 63 |
| `RpcSend.OversizeAcceptedExample` | drivers/virt/gunyah/gh_rm_core.c:576-589 | a size of 232 * 2^32 + 1 is accepted as a single message |
| `RpcSend.FragmentOnTheWire` | drivers/virt/gunyah/gh_rm_core.c:600-635 | message k read back from its bytes: first type or CONT, same seq, msg_id and fragment count, its slice of the payload, at most 240 bytes, PUSH iff last |
| `RpcSend.SeriesLength` | drivers/virt/gunyah/gh_rm_core.c:576-589 | for 1 to 63 * 232 bytes the series has ceil(n / 232) messages |
| `RpcSend.ChunksCover` | drivers/virt/gunyah/gh_rm_core.c:600-635 | the slices of the first n messages concatenate to the first 232 * n payload bytes |
| `RpcSend.Sender.SendSeries` | drivers/virt/gunyah/gh_rm_core.c:600-635 | the loop queues exactly the messages of the series before the first failing send and returns that send's result |
| `RpcSend.RequestOnTheWire` | drivers/virt/gunyah/gh_rm_core.c:557-641 | for 1 to 63 * 232 bytes the messages, read from their bytes alone, are ceil(n / 232) in number, carry this msg_id and seq, REQ then CONT, PUSH on the last only, and concatenate to the payload |
| `RpcSend.Sender.SendRequest` | drivers/virt/gunyah/gh_rm_core.c:557-641 | unready driver, refused size, failed allocation and interrupted lock queue nothing; otherwise the series up to the first failing send; on 0 what was appended, read from its bytes, is exactly this request |
| `RpcReceive.NextAppendFits` | drivers/virt/gunyah/gh_rm_core.c:404-439 | under the loop invariant any further continuation of at most 232 bytes fits in the allocation |
| `RpcReceive.FaultExactly` | drivers/virt/gunyah/gh_rm_core.c:368-439 | an iteration faults iff a reply is unmatched or short, or a continuation belongs to a series without a buffer |
| `RpcReceive.EmptySeriesFaults` | drivers/virt/gunyah/gh_rm_core.c:154-189 | every reply to a waiting call that starts empty and announces more leaves no buffer, and any next fragment faults |
| `RpcReceive.ShortReplyThenContinuation` | drivers/virt/gunyah/gh_rm_core.c:404-439 | from the initial state, a 12-byte reply and one continuation fault |
| `RpcReceive.StrayReply` | drivers/virt/gunyah/gh_rm_core.c:368-402 | from the initial state, a reply nobody waits for faults |
| `RpcReceive.StepKeeps` | drivers/virt/gunyah/gh_rm_core.c:516-550 | every lawful message keeps the loop invariant |
| `RpcReceive.StreamKeeps` | drivers/virt/gunyah/gh_rm_core.c:491-555 | over every lawful stream, at each loop head: fragments_received < num_fragments, size is the sum of accepted payloads, capacity is first payload + fragments * 232, no connection finishes twice, completed ones have all fragments and aborted ones do not |
| `RpcReceive.IdsGrow` | drivers/virt/gunyah/gh_rm_core.c:441-489 | a connection once used is never forgotten, so a second reply to the same call cannot pass for a first |
| `RpcReceive.Connection.InitBuff` | drivers/virt/gunyah/gh_rm_core.c:154-189 | allocation and copy on the heap equal the value-level connection |
| `RpcReceive.Connection.AppendCont` | drivers/virt/gunyah/gh_rm_core.c:404-439 | the append at payload + size, in bounds, equals the value-level append |
| `RpcReceive.Receiver.Receive` | drivers/virt/gunyah/gh_rm_core.c:516-550 | one iteration on the heap equals Step |
| `RpcReceive.RecvTask` | drivers/virt/gunyah/gh_rm_core.c:491-555 | the task over a whole lawful stream makes no access out of bounds and ends as Run says |
| `RpcRoundTrip.FramingRoundTrip` | drivers/virt/gunyah/gh_rm_core.c:557-641 | for every payload of 1 to 63 * 232 bytes and any receiver state, feeding the series (first type NOTIF) rebuilds exactly the payload, completing on the last message and not before |
| `RpcCallsSafety.RunKeeps` | drivers/virt/gunyah/gh_rm_core.c:659-729 | the invariant of callers, table, request queue, RM and receive loop holds after every interleaving |
| `RpcCallsSafety.SequenceNumbersDistinct` | drivers/virt/gunyah/gh_rm_core.c:674-682 | two calls that have not returned never share a sequence number |
| `RpcCallsSafety.SequenceNumberAvailable` | drivers/virt/gunyah/gh_rm_core.c:674-682 | in every run, with fewer than 65535 calls begun and not returned, a number is free |
| `RpcCallsSafety.RequestsNeverInterleave` | drivers/virt/gunyah/gh_rm_core.c:595-637 | wherever a request starts on the queue, what follows is its own series and nothing in between |
| `RpcCallsSafety.EveryMessageInItsSeries` | drivers/virt/gunyah/gh_rm_core.c:595-637 | every queued message lies at its place behind the start of its own series |
| `RpcCallsSafety.ReceiveNeverFaults` | drivers/virt/gunyah/gh_rm_core.c:491-555 | in every reachable state the receive loop takes the next message without a fault and then holds exactly that series so far |
| `RpcCallsSafety.EachCallGetsItsOwnReply` | drivers/virt/gunyah/gh_rm_core.c:659-729 | a call that returned has error code and payload of the reply RM produced for the request this very call put on the queue, even if another call's request has the same bytes |
| `MemShare.CallsCarryTheSgl` | drivers/virt/gunyah/gh_rm_iface.c:2173-2222 | the requests concatenate to exactly the SGL; first min(n, 512) entries, APPEND iff n > 512; appends of 1 to 512 entries, END on the last only |
| `MemShare.MemAppend` | drivers/virt/gunyah/gh_rm_iface.c:2093-2142 | more than 512 entries are refused unsent; otherwise one request, and success is a reply of size zero |
| `MemShare.AppendRest` | drivers/virt/gunyah/gh_rm_iface.c:2211-2222 | the loop sends the appends up to the first failing one, for any sequence of outcomes |
| `MemShare.ShareLendHelper` | drivers/virt/gunyah/gh_rm_iface.c:2145-2236 | all argument checks and error paths; a failed append is followed by exactly one reclaim and leaves the handle unwritten |
| `MemAccept.Gather.Append` | drivers/virt/gunyah/gh_rm_iface.c:1811-1831 | pushes at the head; refuses exactly what would take the count past U16_MAX or cannot be allocated |
| `MemAccept.Gather.Combine` | drivers/virt/gunyah/gh_rm_iface.c:1833-1860 | the copies fill the allocation exactly and give the concatenation of the list |
| `MemAccept.GatherFragments` | drivers/virt/gunyah/gh_rm_iface.c:2016-2042 | the do-while loop, for every sequence of answers and of allocation results: what it gathered, when it stops and why |
| `MemAccept.MemAcceptCall` | drivers/virt/gunyah/gh_rm_iface.c:1977-2078 | DONE held back until the last fragment, then exactly once iff asked for; exactly one release iff it fails after a successful answer; success whenever the answers allow it |
| `MemAccept.SizesSuffice` | drivers/virt/gunyah/gh_rm_iface.c:1862-1881 | answers of 4 + 16 * n bytes for n entries, all but the last incomplete and together at most U16_MAX entries, make the call succeed |
| `MemAccept.GatheredSizes` | drivers/virt/gunyah/gh_rm_iface.c:1862-1881 | nothing else is gathered |
| `MemAccept.NewestFirstKeepsEntries` | drivers/virt/gunyah/gh_rm_iface.c:1811-1860 | newest-first order keeps every entry as often as it arrived |
| `MemAccept.FragmentContiguous` | drivers/virt/gunyah/gh_rm_iface.c:1833-1860 | each fragment is found whole, in its own order, behind the later ones |
| `MemAccept.AcceptedListConserves` | drivers/virt/gunyah/gh_rm_iface.c:1811-1860 | an accepted list holds every entry of every fragment exactly once; its length is the sum and at most U16_MAX |
| `MemRequest.LayoutRoundTrip` | drivers/virt/gunyah/gh_rm_iface.c:1536-1580 | an independent reader gets header, ACL, SGL and attributes back from the bytes, which end with the last section |
| `MemRequest.SectionsAt` | drivers/virt/gunyah/gh_rm_iface.c:1536-1580 | the sections are adjacent and disjoint |
| `MemRequest.RecordLayout` | drivers/virt/gunyah/gh_rm_iface.c:1493-1531 | which bytes of an ACL, SGL and attribute record each field occupies |
| `MemRequest.AllocationMatches` | drivers/virt/gunyah/gh_rm_iface.c:1582-1621 | allocated size equals written size iff there are at most 65535 ACL entries |
| `MemRequest.PopulateAcl` | drivers/virt/gunyah/gh_rm_iface.c:1493-1504 | fills exactly the ACL section in place |
| `MemRequest.PopulateSgl` | drivers/virt/gunyah/gh_rm_iface.c:1506-1520 | writes the first min(n, 512) entries and returns where the section ends |
| `MemRequest.PopulateAttr` | drivers/virt/gunyah/gh_rm_iface.c:1522-1531 | fills exactly the attribute section in place |
| `MemRequest.PopulateMemRequest` | drivers/virt/gunyah/gh_rm_iface.c:1536-1580 | the three sections one behind the other, nothing else touched |
| `MemRequest.BuildRequest` | drivers/virt/gunyah/gh_rm_iface.c:2173-2195 | the buffer is filled to its last byte with the request carrying the first min(n, 512) entries, and decodes to it |
| `MsgQueue.StepKeeps` | drivers/virt/gunyah/gh_msgq.c:97-160 | every step of senders, receivers and interrupt handlers keeps the invariant of both flags |
| `MsgQueue.NoLostWakeup` | drivers/virt/gunyah/gh_msgq.c:97-160 | in every reachable state a set flag, or a sleeper, with nothing to wait for has an interrupt pending or being handled |
| `MsgQueue.FullIsFlagged` | drivers/virt/gunyah/gh_msgq.c:272-289 | over every run: when a send's locked section ends, tx_full is set iff the send filled the queue or found it full, and it stays so until the interrupt handler clears it or another section ends |
| `MsgQueue.EmptyIsFlagged` | drivers/virt/gunyah/gh_msgq.c:135-153 | the same for rx_empty and a receive that takes the last message or finds none |
| `MsgQueue.InOrderOnce` | drivers/virt/gunyah/gh_msgq.c:123-296 | what receive calls have taken and what is still queued is exactly what send calls have queued, once each and in order; the queue stays within its capacity |
| `MsgQueue.NoMutualSleep` | drivers/virt/gunyah/gh_msgq.c:234-244 | sender and receiver never both sleep without an interrupt left to wake one |
| `MsgQueue.Queue.LockedSend` | drivers/virt/gunyah/gh_msgq.c:258-296 | under any interference: -EAGAIN iff the queue was full, other errors pass through, and the message is queued, once, exactly on 0; undisturbed, tx_full says whether the queue is full, and other errors leave it alone |
| `MsgQueue.Queue.LockedRecv` | drivers/virt/gunyah/gh_msgq.c:123-160 | under any interference: -EAGAIN iff the queue was empty, and 0 comes with its oldest message, taken once; undisturbed, rx_empty says whether the queue is empty, and other errors leave it alone |
| `MsgQueue.Queue.Send` | drivers/virt/gunyah/gh_msgq.c:363-372 | under any interference: the call queues its message exactly once when it returns 0 and nothing otherwise; undisturbed on a full queue, a non-blocking caller gets -EAGAIN and any other is asleep |
| `MsgQueue.Queue.Recv` | drivers/virt/gunyah/gh_msgq.c:234-244 | under any interference: the message returned with 0 is the one this call took, and it takes none otherwise; undisturbed on an empty queue, a non-blocking caller gets -EAGAIN and any other is asleep |
| `ProxySched.StepKeeps` | drivers/virt/gunyah/gh_proxy_sched.c:601-670 | every step of the thread, a waker, a signal or VM exit keeps the invariant |
| `ProxySched.NoLostWakeup` | drivers/virt/gunyah/gh_proxy_sched.c:101-116 | a thread asleep although woken since its last vcpu_run is about to be woken by a waker still in flight |
| `ProxySched.WakeThenRunThenBlock` | drivers/virt/gunyah/gh_proxy_sched.c:601-670 | between any wakeup and the next block there is a vcpu_run hypercall |
| `ProxySched.WatchdogDiscipline` | drivers/virt/gunyah/gh_proxy_sched.c:601-675 | FREEZE and UNFREEZE alternate, FREEZE first; vcpu_run only unfrozen with the wakeup source held; sleep only with it relaxed; -ERESTARTSYS only frozen |
| `ProxySched.AnswersAreFollowed` | drivers/virt/gunyah/gh_proxy_sched.c:614-675 | EXPECTS_WAKEUP and POWERED_OFF are followed by relaxing the wakeup source, and by a block unless woken or signalled; READY with need_resched by FREEZE; an error by no further hypercall; the value returned is the last answer's, or -ERESTARTSYS with a signal pending |
| `ProxySched.OtherAnswersKeepRunning` | drivers/virt/gunyah/gh_proxy_sched.c:630-659 | after any other answer no relaxing and no block comes before the next answer |
| `ProxySched.AtMostOneRunAfterExit` | drivers/virt/gunyah/gh_proxy_sched.c:559-571 | after is_active is cleared the vCPU is run at most once more |
| `ProxySched.SleepsAfterExitOnlyIfRunAgain` | drivers/virt/gunyah/gh_proxy_sched.c:559-571 | a thread found asleep after the exit's wakeup was run once more after it and asked to sleep |
| `ProxySched.ExitWakeupSpentExactly` | drivers/virt/gunyah/gh_proxy_sched.c:601-613 | from every state of an exited VM: some continuation of a wakeup blocks iff it finds the thread between the test of is_active and the clearing of abort_sleep, with no signal pending |
| `ProxySched.LeavesAfterExit` | drivers/virt/gunyah/gh_proxy_sched.c:661-676 | otherwise each step of the thread brings it closer to its return, nothing others do takes it back, and it is never stuck asleep |
| `ProxySched.ExitWakeupCanBeSpent` | drivers/virt/gunyah/gh_proxy_sched.c:601-613 | a run in which the exit's wakeup is cleared before the hypercall |
| `ProxySched.Vcpu.Sleep` | drivers/virt/gunyah/gh_proxy_sched.c:112-116 | gh_vcpu_sleep under any interference keeps the invariant and returns only awake |
| `ProxySched.Vcpu.RunVcpu` | drivers/virt/gunyah/gh_proxy_sched.c:584-676 | the whole loop under any interference keeps the invariant; -EPERM iff inactive or without a capability; -ERESTARTSYS only frozen |
| `VirtioEvents.NoSpuriousSignal` | drivers/virt/gunyah/gh_secure_vm_virtio_backend.c:1104-1137 | per queue, eventfd signals plus a pending bit never exceed the delivered words with that bit |
| `VirtioEvents.ResetSilences` | drivers/virt/gunyah/gh_secure_vm_virtio_backend.c:434-446 | after a taken reset no signal before the next ACK_DRIVER_OK and a new registration of that queue; the same for the first signal of all |
| `VirtioEvents.DeliveredIsReported` | drivers/virt/gunyah/gh_secure_vm_virtio_backend.c:432-471 | a delivered reset, DRIVER_OK or interrupt acknowledgement is reported by the next locked section in which nothing goes before it; DRIVER_OK is dropped iff acknowledged since the last reset |
| `VirtioEvents.WaitersAreWoken` | drivers/virt/gunyah/gh_secure_vm_virtio_backend.c:1126-1129 | once something other than buffers is delivered, or the VM exits, evt_avail is set until a waiter takes it |
| `VirtioEvents.ExitIsReported` | drivers/virt/gunyah/gh_secure_vm_virtio_backend.c:412-482 | after VM exit a wait reports APP_EXIT iff no other waiter is inside its locked section, and 0 otherwise, until the device is opened again |
| `VirtioEvents.BusyMeansAnother` | drivers/virt/gunyah/gh_secure_vm_virtio_backend.c:422-482 | the waiter in the way is a different thread, so a sole waiter always gets APP_EXIT |
| `VirtioEvents.ExitCanBeMissed` | drivers/virt/gunyah/gh_secure_vm_virtio_backend.c:478-482 | a run with two waiters in which one reports 0 |
| `VirtioEvents.RunKeeps` | drivers/virt/gunyah/gh_secure_vm_virtio_backend.c:412-482 | the invariant holds after every interleaving of interrupt, wait, ioeventfd, ack, exit and open |
| `VirtioEvents.Device.SignalVqs` | drivers/virt/gunyah/gh_secure_vm_virtio_backend.c:311-324 | signals each pending queue that has an eventfd exactly once, and clears exactly those bits |
| `VirtioEvents.Device.Interrupt` | drivers/virt/gunyah/gh_secure_vm_virtio_backend.c:1116-1131 | one delivered event, acknowledged or not: the words, evt_avail and the signals afterwards |
| `VirtioEvents.Device.VdevInterrupt` | drivers/virt/gunyah/gh_secure_vm_virtio_backend.c:1104-1137 | the handler's loop: all events in batch mode, one otherwise, stopping at an empty one; how often it signals each queue |
| `VirtioEvents.Device.TakeEvent` | drivers/virt/gunyah/gh_secure_vm_virtio_backend.c:422-473 | for each kind of pending event, in the order they are tried: what is reported, what stays pending, and which queues are signalled |
| `BufferShare.ShareOneEffect` | drivers/virt/gunyah/gh_secure_vm_virtio_backend.c:1187-1242 | a private buffer is shared, or as before iff its own rollback works |
| `BufferShare.UnshareOneEffect` | drivers/virt/gunyah/gh_secure_vm_virtio_backend.c:1139-1163 | a shared buffer is private again iff both calls work |
| `BufferShare.AllOrNothing` | drivers/virt/gunyah/gh_secure_vm_virtio_backend.c:1244-1270 | for any number of buffers and any failing step: all shared if none fails, otherwise all as before iff the rollback calls work |
| `BufferShare.VirtMachine.ShareVmBuffers` | drivers/virt/gunyah/gh_secure_vm_virtio_backend.c:1244-1270 | each buffer ends exactly as the rollback index says; hyp_assign_done is set iff all steps work |
| `BufferShare.VirtMachine.UnshareVmBuffers` | drivers/virt/gunyah/gh_secure_vm_virtio_backend.c:1165-1185 | the buffers up to and including the first failing one were worked on, the later ones not; its error is returned and hyp_assign_done stays set; nothing to do when it is clear |
| `BufferShare.VirtMachine.ShareThenUnshare` | drivers/virt/gunyah/gh_secure_vm_virtio_backend.c:1139-1270 | a share and an unshare that work put every buffer's owners and permissions back |
| `BufferShare.NoSecondUnshare` | drivers/virt/gunyah/gh_secure_vm_virtio_backend.c:1139-1163 | a buffer whose memparcel is gone cannot be unshared again |
| `IrqLend.NotificationTouchesOne` | drivers/virt/gunyah/gh_irq_lend.c:41-141 | a notification changes at most one entry, and that one matches its handle, or its label and lender |
| `IrqLend.AcceptedLeavesThroughReleased` | drivers/virt/gunyah/gh_irq_lend.c:252-270 | from ACCEPTED back to NONE only through RELEASED, unless the very reclaim that ends the use was past its test when ACCEPTED was entered |
| `IrqLend.LeavesThroughReleasedExactly` | drivers/virt/gunyah/gh_irq_lend.c:252-270 | at every moment of every run: all returns pass through RELEASED iff no successful reclaim has an unreleased acceptance between its test and its write |
| `IrqLend.BalanceStep` | drivers/virt/gunyah/gh_irq_lend.c:333-415 | exactly one kind of step unbalances a label: an accept or release writing to an entry that is NONE |
| `IrqLend.BalancedExactly` | drivers/virt/gunyah/gh_irq_lend.c:158-415 | claims minus reclaims is 0 or 1, and 1 iff the state is not NONE, at every moment of exactly the runs without such a write |
| `IrqLend.SeparateIsEnough` | drivers/virt/gunyah/gh_irq_lend.c:252-415 | the balance holds when no reclaim completes during an accept or release of the same label |
| `IrqLend.RaceExample` | drivers/virt/gunyah/gh_irq_lend.c:252-415 | a run that shows both exceptions |
| `IrqLend.Table.ReleasedAccepted` | drivers/virt/gunyah/gh_irq_lend.c:41-90 | an entry waiting for the handle becomes RELEASED or ACCEPTED, iff there is one; no other entry changes |
| `IrqLend.Table.LentNotified` | drivers/virt/gunyah/gh_irq_lend.c:96-141 | the label, iff it waits for that lender, becomes LENT with the notification's owner and handle; no other entry changes |
| `IrqLend.Table.Reclaim` | drivers/virt/gunyah/gh_irq_lend.c:252-270 | under any interference: 0 exactly when the label's count of reclaims goes up, by one, and the label is free; nobody can claim it meanwhile; refused by its test it changes nothing |
| `IrqLend.Table.Accept` | drivers/virt/gunyah/gh_irq_lend.c:333-361 | under any interference: a number iff RM agreed, and then ACCEPTED whatever happened meanwhile; refused by a test it changes nothing |
| `IrqLend.Table.Release` | drivers/virt/gunyah/gh_irq_lend.c:397-414 | under any interference: RM's answer, and 0 leaves the label waiting for a lend; refused by its test it changes nothing |
| `IrqLend.Table.Lend` | drivers/virt/gunyah/gh_irq_lend.c:158-193 | under any interference: a claim iff the label is free and both lookups work, kept when RM refuses; RM's handle is stored on 0 |
| `IrqLend.Table.WaitForLend` | drivers/virt/gunyah/gh_irq_lend.c:280-304 | a claim iff the label is free; afterwards exactly the named lender (or any) is listened to, and no other label changes |
| `IrqLend.Table.WaitNotifyAccept` | drivers/virt/gunyah/gh_irq_lend.c:96-361 | a wait, the matching notification and an accept RM agrees to return the mapped number and leave the label ACCEPTED |
| `VmLifecycle.StepKeeps` | drivers/virt/gunyah/gh_main.c:281-511 | every step of run, creation, release, configuration and notification keeps the invariant |
| `VmLifecycle.StartedAtMostOnce` | drivers/virt/gunyah/gh_main.c:342-421 | gh_rm_vm_start at most once; the tests before it saw READY and, if secure, created == allowed, which still holds at the call |
| `VmLifecycle.StartsInReadyExactly` | drivers/virt/gunyah/gh_main.c:118-133 | a start is made in READY iff the last of RM's reports between the tests of that ioctl and the call, if any, is not RESET |
| `VmLifecycle.StartInResetExample` | drivers/virt/gunyah/gh_main.c:374-383 | a run in which the VM is started in RESET |
| `VmLifecycle.RunningExactly` | drivers/virt/gunyah/gh_main.c:118-149 | the status is RUNNING exactly from a start RM agreed to until RM reports an exit, a reset or READY, or the VM is configured |
| `VmLifecycle.CountsAreRight` | drivers/virt/gunyah/gh_main.c:457-511 | created_vcpus is the number of occupied slots; users_count is the number of open files, less one inside the creation window |
| `VmLifecycle.DestroyedBy` | drivers/virt/gunyah/gh_main.c:323-340 | a step calls gh_destroy_vm iff it releases the last file, or a vCPU file inside the window leaving only the VM's |
| `VmLifecycle.DestroyedWithLastFile` | drivers/virt/gunyah/gh_main.c:323-340 | the VM exists exactly while a file is open, in exactly the runs without such a release, and in them it is destroyed at most once |
| `VmLifecycle.UsedAfterFreeExactly` | drivers/virt/gunyah/gh_main.c:491-503 | somebody can act on the freed VM in exactly the runs with such a release |
| `VmLifecycle.EarlyDestructionExample` | drivers/virt/gunyah/gh_main.c:497-502 | a run with such a release, in which the creating thread goes on to publish its vCPU |
| `VmLifecycle.DestroyLoopHalts` | drivers/virt/gunyah/gh_main.c:300-305 | the slot loop ends, with all slots free, iff the occupied slots form a prefix |
| `VmLifecycle.Machine.RunIoctl` | drivers/virt/gunyah/gh_main.c:342-391 | under any interference: goes on iff the VM was running or this call started it; at most one start, never after an earlier attempt; RM's refusal is returned |
| `VmLifecycle.Machine.CreateVcpu` | drivers/virt/gunyah/gh_main.c:457-511 | under any interference: -EEXIST for an occupied slot, success for a free one; every failure leaves the VM as it was; success occupies exactly one slot and leaves users_count equal to the open files |
| `VmLifecycle.Machine.DestroyVcpus` | drivers/virt/gunyah/gh_main.c:281-305 | the loop in place frees every slot and counts down to zero |
| `SharedMemory.InstalledKeys` | drivers/virt/gunyah/gh_main.c:548-554 | the mask collected with a list is exactly the owner set the list installs |
| `SharedMemory.ReclaimMaskIsOwnerSet` | drivers/virt/gunyah/gh_main.c:556-599 | the mask reclaim computes is exactly the owner set provide installed, for all lists and both modes |
| `SharedMemory.DstOwners` | drivers/virt/gunyah/gh_main.c:715-742 | provide's list makes the VM an owner with RWX, HLOS one iff shared or listed, and nobody else beyond the destination list |
| `SharedMemory.Region.Provide` | drivers/virt/gunyah/gh_main.c:688-799 | owners and ACL are the destination list; refused by RM it returns 0 iff the rollback works, and then the owners are the source list's |
| `SharedMemory.Region.Reclaim` | drivers/virt/gunyah/gh_main.c:556-599 | succeeds iff the mask is the owner set, and installs the source list |
| `SharedMemory.Region.ProvideThenReclaim` | drivers/virt/gunyah/gh_main.c:556-799 | with all environment calls succeeding, ownership is restored |
| `SharedMemory.BuildList` | drivers/virt/gunyah/gh_main.c:710-742 | the loops fill the array with the list in order and collect its mask |
| `MetadataPlacement.RoundUpOverflow` | drivers/virt/gunyah/gh_secure_vm_loader.c:32-32 | the check after PAGE_ROUND_UP notices exactly the wrapped sums |
| `MetadataPlacement.HighestEndsLast` | drivers/virt/gunyah/gh_secure_vm_loader.c:127-143 | among disjoint non-empty segments image_end_addr is at or beyond every end |
| `MetadataPlacement.PlacementIsSafe` | drivers/virt/gunyah/gh_secure_vm_loader.c:99-175 | a non-zero result is flush with the end of the region, the copy is inside, no segment reaches past it, no 64-bit sum wraps |
| `MetadataPlacement.PlacementSucceeds` | drivers/virt/gunyah/gh_secure_vm_loader.c:99-175 | well-formed segments that fit are never refused |
| `MetadataPlacement.PlacementByKind` | drivers/virt/gunyah/gh_secure_vm_loader.c:152-170 | a relocatable image is measured from 0, any other from the region's address |
| `MetadataPlacement.NestedSegmentReachesPast` | drivers/virt/gunyah/gh_secure_vm_loader.c:127-143 | with nested segments a segment can reach past the metadata's start |
| `MetadataPlacement.NeverReachesPastExactly` | drivers/virt/gunyah/gh_secure_vm_loader.c:127-170 | for any region and metadata size, no segment reaches past placed metadata iff no end lies beyond both the computed end and the sum of sizes |
| `MetadataPlacement.LoadMetadata` | drivers/virt/gunyah/gh_secure_vm_loader.c:99-175 | the loop and the checks compute that placement; on success the metadata is copied there and nothing else changes |
| `RegionMap.Validate` | hyp-udmabuf/hyp_udmabuf.c:174-192 | accepts iff every address is page aligned and every length but the last is; the size is the total modulo 2^64 |
| `RegionMap.Mmap` | hyp-udmabuf/hyp_udmabuf.c:31-72 | the calls made, in order; success iff every non-empty region finds room |
| `RegionMap.FitsExactly` | hyp-udmabuf/hyp_udmabuf.c:46-57 | for non-empty regions: all fit iff all but the last are together shorter than the mapping |
| `RegionMap.CallsAreAdjacent` | hyp-udmabuf/hyp_udmabuf.c:46-69 | the calls leave no gap and end at min(length, total) |
| `RegionMap.OffsetMapsToByte` | hyp-udmabuf/hyp_udmabuf.c:46-69 | every offset k below min(length, total) is covered by exactly one call, which maps it to byte k of the concatenated regions |
| `RegionMap.NothingOutside` | hyp-udmabuf/hyp_udmabuf.c:46-69 | no call reaches outside that range |
| `RegionMap.CallsArePageAligned` | hyp-udmabuf/hyp_udmabuf.c:46-69 | every call starts on a page boundary |

## Left out

- Hypercall stubs, device-tree probing, debugfs, trace points, `hvc_gunyah.c`, `gh_dbl.c`, `gh_mem_notifier.c`, `irq.c`, `reset.c` and the one-shot RM wrappers: calls and tables that would only add easy members.
- RpcCallsSafety.EachCallGetsItsOwnReply: premises are that sends succeed and allocations are made, because the code leaves the table entry of a call whose send failed (gh_rm_core.c:692-695) and stores a failed number allocation unchecked in 16 bits; a reply may start empty only if it is one message.
- RpcReceive.StreamKeeps: a lawful stream has replies only to waiting calls and no continuation of a series without a buffer; `FaultExactly` shows what happens otherwise. Allocation failures in the loop and the validation of notification payloads are not modelled.
- RpcReceive.Receiver.Receive: a caller's connection object is created when its reply starts, where the code creates it in `gh_rm_call`.
- MemAccept.MemAcceptCall: the list keeps the fragments newest first, as the code does, so arrival order is not claimed. The answer to the DONE request is only tested for an error.
- MsgQueue.Queue.Send: the readiness checks of `gh_msgq_send` and `gh_msgq_recv` before their retry loops are not modelled.
- ProxySched.RunKeeps: a run is one between two resets of the vCPU table; the lookup of VMs in `gh_vms` is not modelled, since it stops at the first free slot.
- VirtioEvents.ExitIsReported: the reported event word is modelled, the acknowledge register is a parameter, and `notify`, reference counts, interrupt injection (`irqfd`) and `gh_virtio_mmio_exit` are not part of the model. Progress of a waiter for bits left over after an acknowledged DRIVER_OK is not claimed.
- IrqLend.BalancedExactly: the callbacks and the `_notify` calls only read the table and are not modelled.
- VmLifecycle.UsedAfterFreeExactly: after an early destruction the steps read the freed memory as if it still held its contents, and users_count as a plain number; `gh_stop_vm` and `gh_vm_cleanup` are not part of the model.
- SharedMemory.Region.Provide: failure returns are followed as they are; `gh_provide_mem` and `gh_reclaim_mem` are not part of the model. The ids and permissions of `qcom_scm_assign_mem` (3 for HLOS, 7 for RWX) are those of the Linux header, which is not in the repository.
- MetadataPlacement.LoadMetadata: the program headers are given as a list, not parsed from the metadata's bytes.
- RegionMap.Mmap: `remap_pfn_range` maps whole pages, so the last page of an unaligned last region is mapped beyond its length; the scatter-gather side of the buffer is not part of the model.
