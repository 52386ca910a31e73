# Verified model of the softswitch

The softswitch runs many small event-driven devices on each hardware thread of a message-passing machine. This project
models it in three layers and proves what each promises.

1. **The scheduler of one thread.** Devices that want to send are on an intrusive doubly linked ready-to-send (RTS) list;
   devices that want to compute are found by a round-robin sweep (RTC). `Scheduler` says what each event computes, as
   functions on the devices, the list as a sequence, and the sweep counters. `ThreadContext` has the contexts and the
   list on the heap and proves each method against those functions. `SchedulerProofs`, `Effects` and `Fairness` prove
   things about the functions: the invariant, what each event does and leaves alone, bounded waiting, fair computing.
   Application handlers are arbitrary functions on their own device's state.
   `MainLoop` is one turn of `softswitch_main`, `TurnEffects` says case by case what a turn does, in terms of its inputs
   alone, `MainProofs` and `Multicast` are about all its runs, and `Softswitch` is the loop as an object over a context
   and a host ring (`HostRing`), proved against `MainLoop`. `ClosedSystem` has several such threads and the packets
   between them. `Persistence` says what the mailbox keeps from turn to turn, and
   `Witnesses` has runs from power-up, of that kind, on which the code breaks its own checks or loses messages.
2. **The emulated mailbox.** `Mailbox` has each critical section as a function, `TinselMbox` is the object with its scans
   and counters, and `MailboxMonitor` lets any number of threads share one: sections are atomic, waits park, a
   notification wakes everybody, a woken thread looks again, and threads may wake for no reason. `MailboxEffects` says
   what each section and each wait does, against a record of what the program asked for. `MailboxRun` makes
   those steps with the object's methods, and `MailboxContract` shows that it gives the main loop what that relies on.
3. **The applications.** `Barrier`, `BarrierProofs`, `BarrierTheorems`, `BarrierRun`; `RingToken`; `EdgeProps`. Each is the
   network of all devices, with messages in flight in a bag and delivered in any order, and the same network run on
   device objects by their own handlers.

`Words` has 32-bit arithmetic and bit operations, `Devices` the vocabulary shared by the layers and the edge lookup,
`Counting` facts about finite sets, `Outcomes` results that may be a failed assertion.

## What was found

Where the code and its own checks or documentation disagree, the model follows the code.

- The assertion that every flag is clear before blocking (src/softswitch/softswitch_main.cpp:160-163) also runs when the
  idle search was skipped because a packet was waiting. A device may then still want to compute, and the assertion fails
  (`Witnesses.QuietAssertionCanFail`).
- `rts_sanity` on entry to `rts_remove` (src/softswitch/softswitch_rts.cpp:24, 56) sees the departing device still listed
  with its new, empty flags, because `softswitch_UpdateRTS` writes them first (line 141). So in a build with assertions
  every removal from the list fails, which a receive or compute handler causes by clearing its device's last send bit
  (`SchedulerProofs.SanityFailsOnRemoval`, `Witnesses.RemovalAssertionCanFail`). The model's list invariant is therefore
  about the links, and membership by flags is a separate predicate. Assertions are in by default, for the hardware too;
  a release build leaves them out (src/true_tinsel/Makefile:32-34, tools/build_tinsel_elf.sh:74, 175, 182).
- These are the only ways for a turn of the main loop to fail (`MainProofs.IterateKeepsInv`).
- The host ring of 40 holds 39, and loses what is pending when a handler pushes beyond that. The adequacy test does not
  prevent it: before a receive it passes at 38 pending although a handler may send two, and before idle and hardware-idle
  work it is not made at all. Host messages leave once and in order exactly while there is room
  (`Multicast.HostMessagesInOrder`, `Multicast.RoomForHandlers`), and there are runs from power-up that lose them
  (`Witnesses.ReceivingCanLoseMessages`, `Witnesses.IdlingCanLoseMessages`). Init handlers may push too, and nothing is
  drained until all have run (`Multicast.HostMessagesFromPowerUp`). All this concerns application handlers that call
  `hostMsgBufferPush` themselves: in the repository only the profiling flush does, and handler logging goes past the ring
  (include/softswitch_hostmessaging.hpp:77-79).
- The project's readme says of the ring that the compute never stops. It stops exactly for odd increments
  (`RingToken.StopsExactlyWhenOdd`); the instances use 2.

## Model

| member | source | states |
|---|---|---|
| BarrierTheorems.NoAssertionFails | src/applications/barrier/barrier_vtables.cpp:21-59 | Over every schedule of sends and deliveries, for any number of devices, any maxTime and any delivery order, no handler assertion fails; all device times stay within one of each other; every tick in flight is unique and is for its destination's current or next time |
| BarrierTheorems.SeenAllMeansAllDone | src/applications/barrier/barrier_vtables.cpp:104-123 | The halt device's count reaches devCount exactly when every device has reached maxTime and halted and no done message is left in flight |
| BarrierTheorems.EveryRunReachesFinal | src/applications/barrier/barrier_vtables.cpp:8-69 | No run is longer than devCount * (maxTime * (devCount + 1) + 2) steps; a run can be extended exactly until it has that many, so there is no deadlock; and every maximal run ends in the same single state |
| BarrierProofs.StepKeepsInv | src/applications/barrier/barrier_vtables.cpp:8-69 | Every step succeeds and keeps the invariant that ties seenNow and seenNext to exactly which (sender, time) ticks have arrived and which are in flight |
| BarrierTheorems.StepUsesOne | src/applications/barrier/barrier_vtables.cpp:8-69 | Every send and every delivery uses up exactly one unit of the termination measure |
| BarrierTheorems.QuietIsFinal | src/applications/barrier/barrier_vtables.cpp:8-19 | A state with nothing in flight and nobody ready is the final state: a device that is ahead of nobody has heard from everybody |
| Barrier.DevState.DevReadyToSendHandler | src/applications/barrier/barrier_vtables.cpp:8-19 | The flags, and which pin the softswitch will select from them: out while time is left, otherwise halt |
| BarrierRun.Network.Fire | src/applications/barrier/barrier_vtables.cpp:8-69 | Asking a device object for its flags and running the handler of the lowest pin set is the sending step of the network, ticks to everybody or a done message, and no assertion of the handler fails |
| BarrierRun.Network.Step | src/applications/barrier/barrier_vtables.cpp:8-123 | Every step made by the handlers on the device objects is that of the network; and when the halt device reports that all have halted, every device object has reached maxTime and halted |
| BarrierRun.RunBarrier | src/applications/barrier/barrier_vtables.cpp:8-123 | The whole barrier on objects, in any order of sends and deliveries: no assertion fails, and it can go no further exactly after the full number of steps, when every device object has finished and the halt device has counted them all |
| Words.FlagMasks | src/softswitch/softswitch_rts.cpp:130-137 | The send-bit and compute-bit tests used throughout the model are the two bit masks 0x7FFFFFFF and 0x80000000 of the code |
| Words.RightMostOne | src/softswitch/softswitch_on_send.cpp:13-24 | The index returned is that of a set bit, and no lower bit is set |
| Devices.BeforeIsStrictTotal | src/softswitch/softswitch_on_receive.cpp:94-100 | cmpAddress compares thread first, then device, then pin, and that is irreflexive, asymmetric, transitive and total |
| Devices.LowerBound | src/softswitch/softswitch_on_receive.cpp:103-105 | The binary search splits a sorted edge list at the first edge that is not before the source |
| Devices.LookUpEdge | src/softswitch/softswitch_on_receive.cpp:91-125 | Binary search plus equality test finds an edge exactly when the packet's source is bound, and it is the edge a front-to-back scan finds |
| Devices.FindEdgeIs | src/softswitch/softswitch_on_receive.cpp:91-133 | In a strictly sorted list the edge of a source is unique |
| Devices.SelectedPinExists | src/softswitch/softswitch_on_send.cpp:52-57 | When the handler asks only for declared pins, the lowest ready pin of a listed device is one of them |
| SchedulerProofs.InitEstablishesInv | src/softswitch/softswitch_init.cpp:74-104 | After initialisation, from any device states, the scheduler invariant holds: no duplicates on the list, on the list exactly when a send bit is set, flags equal to the handler's answer, nothing skipped by the compute search |
| SchedulerProofs.StepKeepsInv | src/softswitch/softswitch_rts.cpp:116-159 | A receive, send, idle or hardware-idle event that its caller may make fails an assertion exactly when the build has assertions and a receive or compute handler takes its listed device off the list; otherwise the invariant is kept and the build makes no difference |
| SchedulerProofs.UpdateRestores | src/softswitch/softswitch_rts.cpp:116-159 | UpdateRTS re-establishes the whole invariant when one device's state, flags currency and compute wish have been disturbed by a handler |
| SchedulerProofs.ReceiveKeepsInv | src/softswitch/softswitch_on_receive.cpp:44-177 | A receive fails exactly when the device, pin or needed edge does not exist or the device is external, or when the build has assertions, the device was listed and its handler leaves no send bit; otherwise the invariant is kept |
| SchedulerProofs.SendKeepsInv | src/softswitch/softswitch_on_send.cpp:44-132 | A send never fails an assertion and keeps the invariant |
| SchedulerProofs.SweepExtends | src/softswitch/softswitch_on_idle.cpp:17-29 | A chunk of the compute search keeps the claim that the last rtcChecked devices before the offset do not want to compute, except the one it found |
| SchedulerProofs.IdleKeepsInv | src/softswitch/softswitch_on_idle.cpp:8-46 | An idle call fails an assertion exactly when the build has assertions and the compute handler it runs takes its listed device off the list; otherwise the invariant is kept |
| SchedulerProofs.GivingUpMeansNoCompute | src/softswitch/softswitch_on_idle.cpp:8-10 | When an idle call returns false it has changed nothing and no device on the thread wants to compute |
| SchedulerProofs.HardwareIdleNeedsQuiet | src/softswitch/softswitch_on_hardware_idle.cpp:8-32 | The pass meets its two assertions at every device exactly when it starts with every flag clear, and then re-establishes the invariant from an empty list |
| SchedulerProofs.SanityFailsOnRemoval | src/softswitch/softswitch_rts.cpp:16-33 | Of all the checks of the list that UpdateRTS makes, on entry and on entry to and exit from the append or removal, exactly the one on entry to a removal fails |
| Witnesses.RemovalAssertionCanFail | src/softswitch/softswitch_rts.cpp:54-56 | The first turn of a thread whose one device wants to send, with a deliverable packet that takes the wish away: with assertions the check fails, without them the device leaves the list |
| SchedulerProofs.WithoutKeeps | src/softswitch/softswitch_rts.cpp:54-78 | Removing a device from the list removes it alone and leaves the list without duplicates |
| SchedulerProofs.WithoutAt | src/softswitch/softswitch_rts.cpp:65-74 | Removal keeps the devices before and after the removed one, in order |
| Effects.ReceiveDelivers | src/softswitch/softswitch_on_receive.cpp:85-182 | A packet runs its pin's handler field on the device's state, the properties and the state of the one edge bound to its source, in that order, and the payload; every other edge state and device is untouched; the device's flags, place on the list and the compute search follow from its new state |
| Effects.DeliverableWhen | src/softswitch/softswitch_on_receive.cpp:42-133 | A packet passes the checks exactly when its device is here and not external, the pin exists, and the pin has an edge from its source or needs none |
| Effects.ReceiveWithoutEdge | src/softswitch/softswitch_on_receive.cpp:74-182 | A pin without edge data runs its handler field on the device's state and the payload alone; all edge states and all other devices are untouched |
| Effects.SendTakesLowestPin | src/softswitch/softswitch_on_send.cpp:44-132 | The handler field run is that of the lowest set pin of the device at the head of the list, on that device's state; the message carries that pin, that device and the handler's payload; no other device is touched; the sender leaves the head, for the tail if it still wants to send |
| Effects.IdleComputesFirst | src/softswitch/softswitch_on_idle.cpp:8-44 | The device computed is the first, going round from the offset, that wants to, if it is among the next 32; its compute handler field alone runs; the search goes on from the device after it; no other device is touched |
| Effects.IdleMovesOn | src/softswitch/softswitch_on_idle.cpp:8-44 | With none that wants to compute among the next 32, an idle call gives up exactly when the count has reached the number of devices, and otherwise goes on 32 devices further and counts them, all modulo the wrap-arounds |
| Effects.InitDoesAll | src/softswitch/softswitch_init.cpp:77-104 | Initialisation runs every init handler field once, takes the flags from the ready-to-send handler field, and lists the devices that then want to send in device order |
| Effects.HardwareIdleDoesAll | src/softswitch/softswitch_on_hardware_idle.cpp:11-32 | From a quiet state every hardware-idle handler field runs once, the devices that then want to send are listed in device order, and the compute search restarts exactly if some device then wants it |
| Fairness.ReachableStates | src/softswitch/softswitch_rts.cpp:116-159 | In every state reachable from power-up by any events: no duplicates, membership exactly by the current answer of the ready-to-send handler, flags current, compute search sound |
| Fairness.SenderGoesLast | src/softswitch/softswitch_on_send.cpp:44-132 | A send takes the head off the list, puts it back at the tail if it is still ready, and moves nobody else |
| Fairness.BoundedWaiting | src/softswitch/softswitch_on_send.cpp:44-132 | A device that stays ready sees its position fall by one at every send and never rise, under any interleaving of receives, idles and sends |
| Fairness.PoppedWithinNumDevices | src/softswitch/softswitch_on_send.cpp:44-132 | A device that stays ready is popped before numDevices sends have passed it |
| Fairness.ComputeIsFair | src/softswitch/softswitch_on_idle.cpp:14-46 | A device that keeps its compute bit is computed by one of the next numDevices idle calls, whatever else happens, so the search cannot give up first |
| Fairness.FruitlessIdlesEnd | src/softswitch/softswitch_on_idle.cpp:8-33 | At most ceil(numDevices / 32) idle calls in a row ask to be called again without running a handler, as long as numDevices + 32 fits in 32 bits |
| Fairness.IdleEndsExactlyWhen | src/softswitch/softswitch_on_idle.cpp:8-33 | That bound on numDevices is the exact one for the search to end at all on a thread where nothing wants to compute |
| ThreadContext.PThreadContext.RtsIsOnList | src/softswitch/softswitch_rts.cpp:6-14 | The pointer walk finds a device exactly when it is in the sequence the list stands for |
| ThreadContext.PThreadContext.RtsSanity | src/softswitch/softswitch_rts.cpp:16-33 | On a well-linked list the checks pass exactly when every listed device has a send bit: the link clauses never fail |
| ThreadContext.PThreadContext.RtsAppend | src/softswitch/softswitch_rts.cpp:36-51 | The pointer writes append the device and keep the list well linked; with assertions, fails exactly when a listed device or the new one has no send bit |
| ThreadContext.PThreadContext.RtsRemove | src/softswitch/softswitch_rts.cpp:54-78 | With assertions, fails exactly when some listed device has no send bit, leaving the list alone; otherwise the pointer writes delete the device, keep the order of the rest and keep the list well linked |
| ThreadContext.PThreadContext.RtsPop | src/softswitch/softswitch_rts.cpp:81-101 | Null on an empty list; otherwise the first device, leaving the rest well linked; with assertions, fails exactly when a listed device has no send bit |
| ThreadContext.PThreadContext.IsRTSReady | src/softswitch/softswitch_rts.cpp:169-172 | True exactly when the sequence is not empty |
| ThreadContext.PThreadContext.UpdateRTS | src/softswitch/softswitch_rts.cpp:116-159 | With assertions, fails exactly when the device is to be removed, with its new flags written; otherwise the context, pointers included, is the scheduler function's result |
| ThreadContext.PThreadContext.OnReceive | src/softswitch/softswitch_on_receive.cpp:16-186 | Fails exactly when the scheduler function does, changing nothing if the packet could not be delivered; otherwise the context is that function's result |
| ThreadContext.PThreadContext.OnSend | src/softswitch/softswitch_on_send.cpp:32-142 | No assertion fails, checks of the list included; the new context and the prepared message are the scheduler function's result |
| ThreadContext.PThreadContext.SweepChunk | src/softswitch/softswitch_on_idle.cpp:17-29 | The loop stops at the same device, with the same counters, as the sweep function |
| ThreadContext.PThreadContext.OnIdle | src/softswitch/softswitch_on_idle.cpp:4-47 | Fails exactly when the scheduler function does; otherwise the return value and the new context are its result |
| ThreadContext.PThreadContext.OnHardwareIdle | src/softswitch/softswitch_on_hardware_idle.cpp:4-37 | Fails exactly when the scheduler function does, at one of the pass's own two assertions and never at a check of the list; otherwise the context is its result |
| ThreadContext.PThreadContext.Init | src/softswitch/softswitch_init.cpp:28-107 | No check of the list fails, and the context is the scheduler function's result |
| HostRing.HostBuffer.Size | src/softswitch/softswitch_hostmessaging.cpp:4-15 | The reported size is the number of pending messages for every wraparound position |
| HostRing.HostBuffer.Space | src/softswitch/softswitch_hostmessaging.cpp:27-29 | 40 less the pending messages, and never zero |
| HostRing.HostBuffer.Push | src/softswitch/softswitch_hostmessaging.cpp:32-45 | Appends a message; at 39 pending it makes the ring read as empty |
| HostRing.HostBuffer.Pop | src/softswitch/softswitch_hostmessaging.cpp:48-75 | Takes the oldest message; popping an empty ring makes it read as full |
| HostRing.HostBuffer.DrainAll | src/softswitch/softswitch_hostmessaging.cpp:191-193 | The exit drain terminates and sends every pending message, in order |
| HostRing.HostBuffer.MakeSpace | src/softswitch/softswitch_main.cpp:190-193 | The drain loop sends from the head, at most one message, until the adequacy test passes |
| HostRing.PushesKept | src/softswitch/softswitch_hostmessaging.cpp:32-45 | A series of pushes is kept whole and in order exactly when it fits in 39 |
| HostRing.AdequateSpaceProtects | src/softswitch/softswitch_main.cpp:108-108 | Where the adequacy test has been made, which is before a receive or a send but not before idle or hardware-idle work, a handler's two messages are safe except with exactly 38 pending |
| HostRing.AdequateSpaceCanLoseAll | src/softswitch/softswitch_main.cpp:190-193 | A concrete ring of 38 that passes the test and is left empty by two pushes |
| Multicast.RoomForHandlers | src/softswitch/softswitch_main.cpp:125-193 | In any turn that pushes at most two messages there is room for them except when an idle handler, which no test precedes, pushes beyond 39, or a received packet's handler pushes two with exactly 38 pending after the drain |
| Witnesses.ReceivingCanLoseMessages | src/softswitch/softswitch_main.cpp:187-227 | From power-up, and as the mailbox allows: twenty packets whose handlers send the host two messages each; the test passes every time, and all forty are lost |
| Witnesses.IdlingCanLoseMessages | src/softswitch/softswitch_main.cpp:125-149 | From power-up, and as the mailbox allows: a message to the host goes out and makes the mailbox busy, and before it is free there are forty more computes, each sending the host one message; all forty are lost |
| Witnesses.WorkerTurn | src/softswitch/softswitch_main.cpp:125-149 | A compute that sends the host one message: with 39 pending and the mailbox busy nothing is left and nothing has gone out; with fewer the message is added |
| MainProofs.IterateKeepsInv | src/softswitch/softswitch_main.cpp:102-300 | A build without assertions never goes wrong. With them one turn fails exactly in three situations: it blocks with nothing to send, a packet already waiting (so the idle search was skipped) and compute work left over; or the compute handler of its idle call, or the handler of the packet it receives, takes its listed device off the list. Otherwise the invariant is kept |
| ClosedSystem.StepKeepsInv | src/softswitch/softswitch_main.cpp:102-300 | In a system of threads whose target lists and source tables agree, the same holds of a turn of any thread without assuming that what it receives exists |
| ClosedSystem.EveryPacketIsDeliverable | src/softswitch/softswitch_on_receive.cpp:42-133 | From power-up of all threads, whatever they do and in whatever order packets arrive: every packet in flight is on its way to a thread that has the device, pin and edge it is addressed to |
| ClosedSystem.PacketsConserved | src/softswitch/softswitch_main.cpp:195-298 | In every such run each copy of a packet that the send handlers of all threads have asked for is received by its target's thread, in flight to it, or still to be sent by its sender: none is lost, doubled or made up |
| Witnesses.QuietAssertionCanFail | src/softswitch/softswitch_main.cpp:160-163 | The first turn of a thread whose one device wants only to compute, with a deliverable packet waiting, fails the first of these |
| MainProofs.QuietWhenNothingWanted | src/softswitch/softswitch_main.cpp:160-163 | With an empty list the checked flags are all clear exactly when no device wants to compute |
| MainProofs.BlocksOnlyWhenQuiet | src/softswitch/softswitch_main.cpp:125-183 | When the loop blocks after a failed idle search nothing is left to do, and a hardware-idle step from there meets its checks and keeps the invariant |
| MainProofs.TransferKeepsInv | src/softswitch/softswitch_main.cpp:187-298 | A receive or send turn fails an assertion exactly when the build has them and the received packet's handler takes its listed device off the list; otherwise the invariant is kept |
| TurnEffects.CasesAre | src/softswitch/softswitch_main.cpp:107-215 | Wanting to send, idling, receiving and draining, from the fields and inputs of a turn alone: receiving comes before sending even while a message is half sent, and with the build option only when nothing can or is to be sent |
| TurnEffects.IdleTurn | src/softswitch/softswitch_main.cpp:125-148 | With nothing to receive or that could be sent, and the compute search not finished, a turn is one idle call and nothing else |
| TurnEffects.HardwareIdleTurn | src/softswitch/softswitch_main.cpp:155-188 | With nothing to send and the whole system idle, a turn is the hardware-idle pass and nothing else |
| TurnEffects.ReceivingTurn | src/softswitch/softswitch_main.cpp:190-227 | A receiving turn passes the waiting packet to onReceive; the half-sent message, its buffer and addresses stay, and at most one host message leaves, over the UART and only with more than 38 pending |
| TurnEffects.HostSendingTurn | src/softswitch/softswitch_main.cpp:229-237 | A sending turn with a host message pending sends the oldest as a packet and runs no handler |
| TurnEffects.ForwardingTurn | src/softswitch/softswitch_main.cpp:239-296 | Otherwise a half-sent message goes to its next address, given for that address's thread, with the buffer's source and payload, and no handler runs |
| TurnEffects.PreparingTurn | src/softswitch/softswitch_main.cpp:239-296 | Only then onSend is asked for a new message, which goes out in the same turn: an application message to the host, any other to the first of its targets, given for that target's thread |
| Multicast.MulticastExactlyOnce | src/softswitch/softswitch_main.cpp:229-298 | Over any run: packets sent, each with the thread it is given for, followed by those the current message still owes, are the target lists of the successful send-handler calls, whole, in order, each for its target's thread with its call's source and payload; application messages go to the host once each |
| Multicast.RunSends | src/softswitch/softswitch_main.cpp:229-298 | The same accounting from any state, including one with a message half sent |
| Multicast.HalfSentMessageGoesOn | src/softswitch/softswitch_main.cpp:229-296 | While a message is half sent every turn leaves its buffer and remaining addresses alone and sends no other device packet, or sends that message to its next address; only idle work and receives run handlers, so no new message is prepared |
| Multicast.HalfSentMessageIsFinished | src/softswitch/softswitch_main.cpp:229-296 | As long as a message is half sent, the sending turns number fewer than its addresses left, the host messages pending at the start and those pushed meanwhile: so it is finished |
| Multicast.HostMessagesInOrder | src/softswitch/softswitch_main.cpp:125-237 | Over any run the host messages that have left and those pending are exactly those pushed, in order and once each, if and only if in every turn the ring had room for what its handler pushed; otherwise some are gone for good |
| Multicast.HostMessagesFromPowerUp | src/softswitch/softswitch_main.cpp:75-237 | The same from power-up, counting the messages of the init handlers, for which there is room exactly if they are at most 39 |
| Multicast.TurnKeepsHostMessages | src/softswitch/softswitch_main.cpp:125-237 | The same for one turn: receiving and sending drain the ring before the handler runs, idle and hardware-idle work does not |
| Softswitch.Softswitch.constructor | src/softswitch/softswitch_main.cpp:66-92 | Entering the loop: initialised devices, the host ring with what the init handlers pushed, nothing half sent, invariant established |
| Softswitch.Softswitch.IsWantingToSend | src/softswitch/softswitch_main.cpp:116-116 | True exactly when a message is half sent, a device is ready or a host message is pending |
| Softswitch.Softswitch.AllFlagsClear | src/softswitch/softswitch_main.cpp:160-163 | The loop of assertions holds exactly when every flag is zero |
| Softswitch.Softswitch.DrainForSpace | src/softswitch/softswitch_main.cpp:190-193 | The drain before a transfer is the model's |
| Softswitch.Softswitch.PrepareMessage | src/softswitch/softswitch_on_send.cpp:32-142 | Preparing a message leaves the send buffer, address list and application flag that the model says |
| Softswitch.Softswitch.ForwardMessage | src/softswitch/softswitch_main.cpp:257-296 | Sends the buffered message to its next address, or once to the host, and advances the list |
| Softswitch.Softswitch.Turn | src/softswitch/softswitch_main.cpp:102-300 | One turn of the loop on the heap, with the checks of the list as compiled, fails exactly when the model's turn does, and otherwise leaves the model's state |
| Softswitch.Softswitch.Run | src/softswitch/softswitch_main.cpp:102-300 | Any number of turns leave the state of the model's run |
| Softswitch.SoftswitchMain | src/softswitch/softswitch_main.cpp:58-301 | From power-up, init handlers included, the packets really given to the mailbox are the target lists of the successful send-handler calls, each whole, in order and once, and each given for its target's own thread |
| Mailbox.FirstFullFinds | src/tinsel/tinsel_mbox.hpp:160-166 | The scan finds a full slot, the first, whenever the counter is positive |
| Mailbox.ProbeFinds | src/tinsel/tinsel_mbox.hpp:329-338 | Going round from any random start the modular probe stops at the first empty slot, and there is one whenever the counter is positive |
| Mailbox.InitialInv | src/tinsel/tinsel_mbox.hpp:93-107 | init leaves counters, send register and ownership in agreement |
| Mailbox.RecvKeepsInv | src/tinsel/tinsel_mbox.hpp:152-176 | Fails exactly when nothing has been received; otherwise one full slot goes to software with its contents and nothing else changes |
| Mailbox.AllocKeepsInv | src/tinsel/tinsel_mbox.hpp:178-195 | Fails exactly when software does not own the slot; otherwise the slot becomes empty, and the notification is made exactly on the step from no empty slot to one |
| Mailbox.SetLenSets | src/tinsel/tinsel_mbox.hpp:208-218 | Fails exactly while a send is active; otherwise the length in the register is the argument and nothing else changes |
| Mailbox.SendKeepsInv | src/tinsel/tinsel_mbox.hpp:220-240 | Fails exactly when a send is active or software does not own the slot; otherwise that slot alone is being sent |
| Mailbox.PullKeepsInv | src/tinsel/tinsel_mbox.hpp:262-291 | The slot in the send register is always the one being sent; fails exactly when the program set too long a length; otherwise takes the message whole and gives the slot back |
| Mailbox.PushKeepsInv | src/tinsel/tinsel_mbox.hpp:311-354 | With a slot empty, fails exactly on a wrong thread or an overlong message; otherwise fills the first empty slot from the random start with the data, keeping what is behind it in the buffer, and leaves all others alone |
| MailboxMonitor.NoLostWakeups | src/tinsel/tinsel_mbox.hpp:178-354 | In every reachable state, for any number of threads and any interleaving, a parked thread that has not been woken waits for something false |
| MailboxMonitor.NotifiesExactlyWhenNeeded | src/tinsel/tinsel_mbox.hpp:178-195 | mboxAlloc notifies exactly when the new slot lets some wait go on; mboxRecv never makes any wait go on |
| MailboxMonitor.MessagesConserved | src/tinsel/tinsel_mbox.hpp:152-354 | Each message given to netPushMessage and accepted has been received once or is in a full slot; every buffer received, and every full slot, starts with its message; messages sent, logged as what the program wrote to the buffer cut at the length it set last, are those pulled, in order, plus at most the one in the send register |
| MailboxMonitor.StepKeepsInv | src/tinsel/tinsel_mbox.hpp:152-354 | A critical section fails an assertion exactly on a mistake of the program; counters, send register and searches never fail; the invariant is kept |
| MailboxRun.Monitor.Step | src/tinsel/tinsel_mbox.hpp:146-354 | A step of any thread made with the methods of the mailbox object fails exactly when the model's does, and otherwise leaves the model's state |
| MailboxRun.Monitor.Run | src/tinsel/tinsel_mbox.hpp:146-354 | Any interleaving on the mailbox object keeps the invariant, and wherever it stops no thread that could go on is left asleep |
| MailboxMonitor.AllBlockExactlyWhen | src/tinsel/tinsel_mbox.hpp:242-354 | Program, incoming and outgoing thread are all blocked exactly when software owns every slot and the program waits only to receive |
| MailboxMonitor.ReadyStays | src/tinsel/tinsel_mbox.hpp:146-260 | What the program has been told about sending or receiving stays true under any steps of all threads that do not use it up |
| MailboxMonitor.WaitedForHolds | src/tinsel/tinsel_mbox.hpp:242-260 | After a step by which a thread enters or resumes mboxWaitUntil and goes on, the condition holds, and still does after anything the other threads go on to do |
| MailboxEffects.ConditionsAre | src/tinsel/tinsel_mbox.hpp:146-260 | The conditions on counters and send register say of the slots: can send when none is being sent, can receive when one is full, can pull when one is being sent, can push when one is empty; and which waits may be entered |
| MailboxEffects.ProgramSectionDoes | src/tinsel/tinsel_mbox.hpp:152-354 | What each section leaves behind in terms of its arguments: the length set, the message sent as the buffer held at that length, the message pulled as in the register, the empty slot pushed into, the full slot received |
| MailboxEffects.LengthIsLastSet | src/tinsel/tinsel_mbox.hpp:208-291 | In every run the length in the register, at which messages are sent and pulled, is the argument of the last mboxSetLen of the run |
| MailboxEffects.OwnThread | src/tinsel/tinsel_mbox.hpp:242-354 | A thread that enters or resumes a wait looks at the condition: if it holds the thread pulls, pushes or goes on and runs, and otherwise sleeps with nothing changed; acting never puts it to sleep |
| MailboxEffects.WaitsEndByOwnStep | src/tinsel/tinsel_mbox.hpp:178-354 | No step of another thread, notification included, ends or changes a thread's wait: it ends only by the woken thread's own step, which finds the condition true and does what was waited for; and a wait begins only by entering it with the condition false |
| MailboxEffects.EveryWaitEndsProperly | src/tinsel/tinsel_mbox.hpp:178-354 | In every run a thread that waits at some point and runs at the end has ended that very wait by such a step |
| MailboxContract.MailboxMeetsContract | src/softswitch/softswitch_main.cpp:108-206 | A turn that looks at the emulated mailbox, waits, and looks again sees what the main loop relies on, whatever the other threads do before, during and after the wait; the hardware's idle call is taken at its word |
| MailboxContract.MailboxMeetsContractInRuns | src/softswitch/softswitch_main.cpp:102-298 | Every run of the main loop whose looks are taken from a run of the emulated mailbox keeps to what is assumed of the hardware in each turn, and each turn can still send or receive what the one before could and did not |
| MailboxContract.MailboxAllowsRealRuns | src/softswitch/softswitch_main.cpp:58-298 | From power-up of thread and mailbox such a run is one of those that the runs in Witnesses are shown to be |
| TinselMbox.TinselMbox.Init | src/tinsel/tinsel_mbox.hpp:93-107 | Whatever the slots held, software owns them all and check_slots passes |
| TinselMbox.TinselMbox.Check | src/tinsel/tinsel_mbox.hpp:298-309 | True exactly when both counters are the true counts |
| TinselMbox.TinselMbox.FindFull | src/tinsel/tinsel_mbox.hpp:160-166 | The loop stops at the first full slot |
| TinselMbox.TinselMbox.FindEmpty | src/tinsel/tinsel_mbox.hpp:329-336 | The loop stops where the probe function does |
| TinselMbox.TinselMbox.MboxCanSend | src/tinsel/tinsel_mbox.hpp:197-206 | Its assertions never fail, and it reports whether the send register is free |
| TinselMbox.TinselMbox.MboxRecv | src/tinsel/tinsel_mbox.hpp:152-176 | Fails exactly when the mailbox function does; otherwise the object and the slot are its result |
| TinselMbox.TinselMbox.MboxAlloc | src/tinsel/tinsel_mbox.hpp:178-195 | Fails exactly when the mailbox function does; otherwise object and notification are its result |
| TinselMbox.TinselMbox.MboxSend | src/tinsel/tinsel_mbox.hpp:220-240 | Fails exactly when the mailbox function does; otherwise the object is its result |
| TinselMbox.TinselMbox.NetPull | src/tinsel/tinsel_mbox.hpp:262-291 | Fails exactly when the mailbox function does; otherwise object and message are its result |
| TinselMbox.TinselMbox.NetPush | src/tinsel/tinsel_mbox.hpp:311-354 | Fails exactly when the mailbox function does, for any random number; otherwise object and slot are its result |
| RingToken.OneToken | src/applications/ring/ring_vtables.cpp:6-55 | In every run there is exactly one token, held by one device or in flight to it, and nowhere else; it makes one hop every two steps, is at or on its way to device hops % devices, and is worth 1 + hops * increment modulo 2^32 |
| RingToken.StopsExactlyWhenOdd | src/applications/ring/ring_vtables.cpp:6-55 | Some run of the ring stops exactly when the increment is odd; with an even increment the token is never zero, 32-bit wraparound included |
| RingToken.StalledAt | src/applications/ring/ring_vtables.cpp:6-12 | The only state without a next step is a token worth nothing |
| RingToken.RunRing | src/applications/ring/ring_vtables.cpp:6-55 | The ring on objects: after any run the devices and the messages in flight hold exactly one token, at device hops % devices, worth 1 + hops * increment modulo 2^32 |
| EdgeProps.EndsExactlyWhenAllArrive | src/applications/edge_props/edge_props_vtables.cpp:8-55 | With one bit each for up to 30 outers, in any delivery order: no assertion fails, the accumulator is the union of the delivered masks, and the program has ended exactly when all have arrived, until when something can still happen |
| EdgeProps.AssertionFailsExactlyOnOverlap | src/applications/edge_props/edge_props_vtables.cpp:45-52 | For any masks below 1 << n, some delivery order fails the disjointness assertion exactly when two masks overlap and one of them does not end the program by itself |
| EdgeProps.ReceiveFailsOnOverlap | src/applications/edge_props/edge_props_vtables.cpp:47-47 | The assertion fails exactly when a pulse already delivered overlaps the new one |
| EdgeProps.Network.Run | src/applications/edge_props/edge_props_vtables.cpp:8-55 | Any sends and deliveries on the device objects fail exactly when the network's run does, and otherwise leave its state |
| EdgeProps.RunEdgeProps | src/applications/edge_props/edge_props_vtables.cpp:8-55 | The application on objects: no assertion fails, and the program has ended exactly when no outer is ready and no pulse is on its way, which is when every bit has arrived |

## Left out

- Sockets, MPI, the UART's bytes, forking and process set-up: the network is a bag of messages, and what goes out is a sequence of outputs.
- The hardware's calls (can-send, can-receive, wait, idle) are inputs of a turn in `MainLoop`, with what they promise in `MainProofs.HardwareOk`.
- MailboxContract.MailboxMeetsContract: a turn with nothing to send makes the hardware's idle instruction, which the emulated mailbox does not have; that it returns system-wide idleness or a message is assumed there, and system-wide idle detection is not modelled. That the program looks for both readiness flags in one state of the mailbox is a simplification.
- MainProofs.IterateKeepsInv: assumes that received packets are addressed to an existing device, pin and edge; `ClosedSystem` proves that they are, for threads whose tables agree. That the generator of the tables makes them agree is not part of the repository.
- MainLoop.Iterate: the messages a handler pushes to the host ring are inputs of the turn, because pushing is up to the handler; a turn that calls the idle search or asks for a message may push even if no handler ran.
- Fairness.FruitlessIdlesEnd: for numDevices up to 2^32 - 32, which is more than memory holds; `Fairness.IdleEndsExactlyWhen` shows that the bound is exact.
- Builds without assertions: only the checks of the list and the one before blocking are left out there; the other assertions fail in the model whatever the build, because past them the code is undefined or, in the external-device and hardware-idle cases, cannot be reached with the inputs assumed.
- Byte layouts, message sizes and the checks on them: payloads are byte sequences, and the message buffer is one record although packets and host messages overlap in memory.
- MailboxMonitor.MessagesConserved: what an earlier message left in a buffer behind a shorter one is not cleared, as in the code, so a buffer received starts with its message and may go on.
- The mailbox's `findSlot` by buffer address: slots are named by their index.
- The program's discipline of writing only to mailbox slots it owns is a condition on runs of `MailboxMonitor`, because nothing in the mailbox checks it.
- Delivery of messages within a thread without the network, the build without hardware idle, profiling counters, logging, the Lamport and current-handler fields, and assertion reporting.
- The external-device branch beyond its assertion, the disabled pointer relocation, and `validate_rts`, which names an undeclared variable.
- The header hostMsg.hpp is not part of this model; the kind, source and payload of a host message are.
- The applications run over an abstract network, not over the modelled scheduler; tables of concrete instances appear only as initial states and shapes, for any number of devices.
