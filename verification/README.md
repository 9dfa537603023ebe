# Verification of the Mu2e spill regulator daemon

`mu2eerd` controls the spill regulator of the Mu2e experiment. A controller thread
takes commands from a message queue and drives the spill state machine (SSM); a
second thread follows the SSM device and publishes what it sees in shared memory;
ACNET clients read that memory. The state machine takes no lock. This project models the
daemon in Dafny and proves what its parts keep, over all inputs, all call sequences
and all interleavings.

| file | what it models |
|---|---|
| `SpillDevice.dfy` | the device as a value, and the specification of its operations |
| `SSMDeviceDriverMock.dfy` | the mock driver in place; replay and conservation over every run of calls |
| `TwoThreads.dfy` | controller thread and SSM thread on one unlocked device and block, step by step |
| `ThreadTheorems.dfy` | completion of reset, faults that are never lost, complete runs |
| `SplitCopies.dfy` | the same two threads with copies to the block taken apart; what depends on whole copies and what does not |
| `SplitHistories.dfy`, `StaleBlocks.dfy` | after which commands the block can be trusted when copies are split, and after which it cannot |
| `GuardedStart.dfy` | the start command of the command-line client, the bounded queue and both threads |
| `SpillStateMachine.dfy` | the facade in place; each of its calls is a run of the two-thread model |
| `Ledgers.dfy` | what the spill counter, the time in spill and the LED should show, and when they do |
| `Stops.dfy` | what a SHUTDOWN or an unknown command makes of the machine |
| `LateCounts.dfy` | for which loaded sequences they can go wrong |
| `Controller.dfy` | the daemon's life cycle and its command loop |
| `CommandHistories.dfy` | what the accepted commands decide in every interleaving |
| `CircularBuffer.dfy` | the circular buffer in place; what every run of enqueues and dequeues leaves |
| `Waveforms.dfy`, `SpillStateMachineSMB.dfy` | closed forms of the waveforms; the generators in place |
| `AcnetDevice.dfy`, `SSMDevice.dfy` | the ACNET read path through its four layers |
| `FtpTable.dfy` | the table of active fast reads as an allocator |
| `Tclk.dfy` | the clock event receiver and its counters |

`Api.dfy`, `Wrappers.dfy`, `Sequences.dfy` and `Modular.dfy` hold the commands, an
option type and lemmas about sequences, quotients and remainders.

Each class method is proved against a function on values (for instance
`SSMDeviceDriverMock.Fault` against `Device.Faulted`), and the theorems are about
those functions. `TwoThreads.Script` lists, for each operation of the facade, the
writes it makes one after the other; one line is one step of the controller. The
SSM thread has a program counter of its own. A step is one state transition, one
clear or refill of the sequence, one field write, or one copy of a field to the block.

**Whole copies.** That a copy is one step is an assumption: the source copies each
field with a getter and a setter (src/ssm/SpillStateMachine.C:133-137), and nothing
keeps the other thread out between the two. `SplitCopies` is the same system with
the assumption as a switch. What it decides is stated as an equivalence: publication
(`PublishedIffWhole`) and the guarded start (`SafeIffPatientAndWhole`) are right
exactly with whole copies. Device, handle and control flow do not depend on it
(`SplitRunsAreRuns`), so the theorems of `TwoThreads` and `ThreadTheorems` need whole
copies only where they speak of the block. With the split copies of the source a reset
still ends in the boot state, block included (`EverySplitResetCompletes`), and a caller
who knows the accepted commands knows whether the block can be trusted: exactly if no
START is live, or the live one came directly after a FAULT and only FAULTs came since
(`RightAfterIff`).

Where the code does not do what it is for, the exact condition is stated:

* The start command gives up after three looks at the flag. The guarded start is
  safe if and only if the client never gives up and copies are whole
  (`SafeIffPatientAndWhole`). With any finite limit two start commands can end the
  daemon (`ImpatientClientCrashes`); with split copies two can even if the client
  waits for ever, because the thread may clear the flag again (`StaleFlagCrashes`).
* The spill counter is promised to hold the spills since the last initialize
  (include/ISSMDeviceDriver.H:80-85). `Ledgers` counts the thread's transitions along any
  run. The counter is right exactly if no spill was still to be counted when it was
  zeroed (`RegistersAreRightIff`, with the time in spill and the LED); it is right in all
  runs exactly for sequences whose SPILL the thread can never return (`AlwaysRightIff`).
* `cleanupCollection` stores through `request_id` instead of the index it searched
  for (src/ACNET/SSMDevice.C:414-415). `WrittenReleaseIsRightIff` says when that is right.
* When the circular buffer is full its head stays behind; `HeadIsRightIff` says when
  it still points at the oldest item, `CorrectedHeadReadsNewest` what to add to it.
* The proxy's 32-bit sum is signed. Reads past 2^31 pass its check; the handler's own
  check is what stops them (`ProxyAcceptsIff`, `WaveformReadErrors`).
* Negative offsets are not refused. A waveform read reaches memory before the waveform
  exactly if its window starts before it and ends inside it (`WaveformReadIff`).

## Model

| member | source | states |
|---|---|---|
| TwoThreads.EveryRunIsPublished | src/ssm/SpillStateMachine.C:68-139 | in every interleaving of every command history, each published field differs from the device or the handle only while a thread has written that field and not copied it since (or is between a transition and its copy), and handle, thread and controller position fit together |
| TwoThreads.RunKeepsInv | src/ssm/SpillStateMachine.C:68-139 | that invariant is inductive: it survives any run of steps from any state that has it |
| TwoThreads.QuiescentBlockIsCurrent | src/ssm/SpillStateMachine.C:131-139 | where neither thread owes a copy the block shows the state, the spill counter, the time in spill and the LED of the device, and the flag the handle |
| TwoThreads.JoinOwesNothing | src/ssm/SpillStateMachine.C:113-124 | a controller that blocks in join owes no copy, so the block is current whenever the thread is between its publications |
| SplitCopies.PublishedIffWhole | src/ssm/SpillStateMachine.C:131-139 | for every loaded sequence: in all runs from boot the block is current where neither thread owes a copy, and a machine at rest in FAULT shows it, exactly if no copy can be interrupted |
| SplitCopies.FaultGetsHidden | src/ssm/SpillStateMachine.C:97-111 | with split copies a run from boot ends with both threads at rest in FAULT and IDLE in the block |
| SplitCopies.SplitRunsAreRuns | src/ssm/SpillStateMachine.C:68-139 | every run with split copies is, up to the block, a run with whole ones of at least half its length |
| SplitCopies.WholeCopies | src/ssm/SpillStateMachine.C:131-139 | with the switch off the runs and their ends are those of the two-thread model |
| SplitCopies.FlagGetsInDanger | src/ssm/SpillStateMachine.C:136 | from every START received without a thread, with a clear flag and outside FAULT, some schedule has the flag published while the thread still holds the cleared flag it read before |
| SplitHistories.QuietBlockIsCurrent | src/ssm/SpillStateMachine.C:131-139 | with split copies, in every run, a controller that waits without a live START, or with one that found FAULT and only FAULTs since, has left the block right and no read pending |
| SplitHistories.EverySplitResetCompletes | src/ssm/SpillStateMachine.C:85-139 | with split copies too, after any history, a RESET is over within 20 steps per pending state plus 80, is never stuck, and ends exactly in the boot state, block included |
| SplitHistories.EveryRunIsUndisturbed | src/ssm/SpillStateMachine.C:68-139 | the invariant behind both: while no thread interferes a field that differs is still to be copied and what the controller has read is current |
| StaleBlocks.RightAfterIff | src/ssm/SpillStateMachine.C:131-139 | with split copies the accepted commands decide: for every loaded sequence and run the block is right at rest, exactly if no START is live or the live one came directly after a FAULT and only FAULTs since |
| StaleBlocks.GoesStale | src/ssm/SpillStateMachine.C:131-139 | for any other commands a run that accepts just these and leaves the block wrong at rest |
| StaleBlocks.DoubledRun | src/ssm/SpillStateMachine.C:131-139 | every run with whole copies is one with split copies |
| ThreadTheorems.EveryResetCompletes | src/ssm/SpillStateMachine.C:85-129 | after any history a RESET is over within 10 steps per pending state plus 39, makes at most one transition more than there are pending states, is never stuck, and can end only in the boot state of the loaded sequence |
| ThreadTheorems.ResetCompletes | src/ssm/SpillStateMachine.C:85-129 | the same from any point inside a reset, bounded by the work left in both threads |
| ThreadTheorems.ResetProceeds | src/ssm/SpillStateMachine.C:113-129 | while join blocks the controller the SSM thread can step |
| ThreadTheorems.FaultIsNeverLost | src/ssm/SSMDeviceDriverMock.C:32-37 | however the writes of fault() interleave with the thread loop, when fault() is over the sequence is empty, the LED dark, and the state is FAULT or the thread still looping |
| ThreadTheorems.EveryFaultIsHeld | src/ssm/SpillStateMachine.C:68-74 | the same for a FAULT command accepted after any history |
| ThreadTheorems.FaultStays | src/ssm/SSMDeviceDriverMock.C:121-134 | with no later initialize or reset, one more transition or nineteen steps of the thread bring FAULT, and it stays |
| ThreadTheorems.FaultReachesTheBlock | src/ssm/SpillStateMachine.C:97-107 | after those steps every quiescent point shows FAULT and a dark LED to clients |
| ThreadTheorems.StartedRunEnds | src/ssm/SpillStateMachine.C:97-111 | however run() and its thread interleave, the run is bounded and ends with the device the loop alone would have made, fully published |
| ThreadTheorems.EveryStartEnds | src/ssm/SpillStateMachine.C:97-111 | after any history a START that finds no thread has at most 10 steps per pending state plus 18, and can end only with what the loop alone makes of the device, published |
| ThreadTheorems.EverySpillIsCounted | src/ssm/SpillStateMachine.C:97-111 | a START on a booted machine of n spills ends, within 80n + 18 steps, with a block that shows FAULT, n spills, 107 ms and a dark LED |
| ThreadTheorems.InitializedSpillsAreCounted | src/ssm/SpillStateMachine.C:76-111 | so does, after any history without a thread, an initialize and then a START, within 11 and 80n + 8 steps |
| ThreadTheorems.InitializeCompletes | src/ssm/SpillStateMachine.C:76-83 | without a thread every run of an initialize is bounded and ends in the initialized device; the block shows the first state, no spills, no time, no thread and a lit LED |
| Stops.EveryStopEnds | src/ssm/SpillStateMachine.C:62-66 | after any history a SHUTDOWN or unknown command is over within 10 steps per pending state plus 28, is never stuck, and ends with the device the joined thread leaves behind, dark if there was one, published |
| Stops.StopIsARun | src/ssm/SpillStateMachine.C:113-129 | the result of the stop() call is reached by a run of the two-thread model |
| Stops.StopCountsSpills | src/ssm/SpillStateMachine.C:113-129 | with a sequence without FAULT pending, stop ends in FAULT, dark, with nothing pending, all pending spills counted and 107 ms if AFTER_SPILL was pending, and the block shows it |
| GuardedStart.PatientClientIsSafe | src/mu2eercli/StartCommand.C:24-53 | with whole copies, in every interleaving of a client that never gives up with the queue and both threads there is at most one START queued or executing, and run() never meets a live handle |
| GuardedStart.PlayKeepsGuard | src/mu2eercli/StartCommand.C:24-53 | the invariant behind it, from any guarded state |
| GuardedStart.CommandsKeepTheirOrder | src/api/ControlMQClient.C:57-63 | in every play the commands accepted by the daemon, with those still queued, are those queued before and then those sent, in that order; the queue never holds more than three |
| GuardedStart.PlayIsARun | src/mu2eerd/Controller.C:138-202 | what the daemon does in a play is a run of its two threads that accepts those commands |
| GuardedStart.ThreeMayWait | src/mu2eerd/Controller.H:88 | three commands may wait in the queue and no fourth |
| GuardedStart.GivesUpAtTheThirdLook | src/mu2eercli/StartCommand.C:37-50 | the source's client gives up at its third look at a clear flag |
| GuardedStart.ImpatientClientCrashes | src/mu2eercli/StartCommand.C:37-50 | for every limit on the polls there is a schedule of two start commands in which run() replaces a live thread handle |
| GuardedStart.StaleFlagCrashes | src/mu2eercli/StartCommand.C:24-53 | with split copies there is such a schedule for every client, however patient, and every loaded sequence |
| GuardedStart.SafeIffPatientAndWhole | src/mu2eercli/StartCommand.C:24-53 | no schedule crashes the daemon exactly if the client never gives up and copies are whole; with the source's limit one does either way |
| SpillStateMachines.FaultIsARun | src/ssm/SpillStateMachine.C:68-74 | the result of the fault() call is reached by a run of the two-thread model |
| SpillStateMachines.InitializeIsARun | src/ssm/SpillStateMachine.C:76-83 | likewise initialize() |
| SpillStateMachines.RunIsARun | src/ssm/SpillStateMachine.C:97-111 | likewise run() without a live handle |
| SpillStateMachines.ResetIsARun | src/ssm/SpillStateMachine.C:85-95 | likewise reset(): from every state that has the invariant some schedule completes it in the boot state |
| Ledgers.EveryRunBalances | src/ssm/SSMDeviceDriverMock.C:39-55 | conservation in every interleaving: the counter and the spill still to be counted are the transitions to SPILL since it was zeroed and the one that was outstanding then; likewise the time in spill and the LED |
| Ledgers.RegistersAreRightIff | include/ISSMDeviceDriver.H:80-85 | in every run, where its bookkeeping is done, the counter is right exactly if no count was outstanding at the zeroing; the time in spill and the LED under the like condition, or where later transitions hide it |
| LateCounts.AlwaysRightIff | src/ssm/SSMDeviceDriverMock.C:121-171 | the counter, and the time in spill, are right in all runs exactly for sequences in which every SPILL, or AFTER_SPILL, has two FAULTs before it; the LED can go wrong with every sequence |
| LateCounts.LoadedSpillsAreRightIff | src/ssm/SSMDeviceDriverMock.C:57-75 | for n loaded spills both are right in all runs exactly if n is zero |
| LateCounts.LateOnlyIfReturnable | src/ssm/SSMDeviceDriverMock.C:121-134 | the thread never returns a state with two FAULTs before it |
| LateCounts.SkippingReturn | src/ssm/SSMDeviceDriverMock.C:39-55 | past a single FAULT it gets when an initialize takes that one |
| LateCounts.GoesWrong | src/ssm/SpillStateMachine.C:76-83 | a complete initialize that overtakes the bookkeeping of SPILL, AFTER_SPILL or FAULT leaves its register wrong |
| SpillStateMachines.SpillStateMachine.constructor | src/ssm/SpillStateMachine.C:51-60 | the facade starts in the boot state of the configured or the factory's sequence, all published |
| SpillStateMachines.LoadedIs | src/ssm/ISSMDeviceDriver.C:23-37 | what is loaded for each driver name and number of spills |
| SpillStateMachines.SpillStateMachine.Fault | src/ssm/SpillStateMachine.C:68-74 | the device is faulted and the block shows it |
| SpillStateMachines.SpillStateMachine.Initialize | src/ssm/SpillStateMachine.C:76-83 | the block shows the first state, no spills, no time and a lit LED; the sequence is replayed from its second state on |
| SpillStateMachines.SpillStateMachine.Reset | src/ssm/SpillStateMachine.C:85-95 | whatever the state, the result is the boot state of the loaded sequence |
| SpillStateMachines.SpillStateMachine.Run | src/ssm/SpillStateMachine.C:97-111 | terminates exactly on a live handle, with nothing changed; otherwise a thread is there, the device is untouched and the flag is published |
| SpillStateMachines.SpillStateMachine.Stop | src/ssm/SpillStateMachine.C:113-129 | nothing happens without a thread; with one it is joined: the device has run to FAULT, the handle is gone and all is published |
| SpillStateMachines.SpillStateMachine.ThreadBody | src/ssm/SpillStateMachine.C:100-107 | the loop terminates in FAULT, having waited exactly until it first appeared |
| SpillStateMachines.SpillStateMachine.SmbUpdate | src/ssm/SpillStateMachine.C:131-139 | each of the five fields of the block is the device's, or the handle's, and the waveforms are drawn |
| SSMDeviceDriver.EveryRunReplaysAndAccounts | src/ssm/SSMDeviceDriverMock.C:32-171 | over every run of driver calls what was seen since the last initialize or reset is a prefix of the loaded sequence and then only FAULT; the counter is the number of SPILLs returned, the register 107 exactly if AFTER_SPILL was, and the LED is lit exactly if primed and no fault was requested or returned |
| SSMDeviceDriver.SSMDeviceDriverMock.Configure | src/ssm/SSMDeviceDriverMock.C:17-25 | a positive number of spills loads that many, zero keeps the sequence |
| SSMDeviceDriver.SSMDeviceDriverMock.Fault | src/ssm/SSMDeviceDriverMock.C:32-37 | FAULT, dark, nothing left to replay, counters and loaded sequence kept |
| SSMDeviceDriver.SSMDeviceDriverMock.Initialize | src/ssm/SSMDeviceDriverMock.C:39-55 | the whole new device: refilled, then advanced by one state |
| SSMDeviceDriver.SSMDeviceDriverMock.LoadSpillSequence | src/ssm/SSMDeviceDriverMock.C:57-75 | the loop loads n spill cycles |
| SSMDeviceDriver.SSMDeviceDriverMock.Reset | src/ssm/SSMDeviceDriverMock.C:77-85 | the device is as freshly made with its sequence, and the delay is zero |
| SSMDeviceDriver.SSMDeviceDriverMock.ResetSequence | src/ssm/SSMDeviceDriverMock.C:87-94 | the loop makes the pending sequence the loaded one |
| SSMDeviceDriver.SSMDeviceDriverMock.StateNext | src/ssm/SSMDeviceDriverMock.C:121-134 | takes the first pending state, or FAULT if there is none |
| SSMDeviceDriver.SSMDeviceDriverMock.WaitForStateChange | src/ssm/SSMDeviceDriverMock.C:147-171 | one transition with its bookkeeping |
| SpillDevice.FirstFault | src/ssm/SSMDeviceDriverMock.C:121-171 | a sequence without FAULT is replayed to its end without a fault; the next wait faults, with counters that summarise the whole sequence |
| SpillDevice.WaitsReplay | src/ssm/SSMDeviceDriverMock.C:121-134 | the k-th wait returns the k-th pending state |
| SpillDevice.WaitsCount | src/ssm/SSMDeviceDriverMock.C:147-171 | after k waits the counters summarise the first k pending states |
| SpillDevice.FullRunAfterInitialize | src/ssm/SSMDeviceDriverMockTests.C:344-375 | n loaded spills after initialize take exactly 8n waits to the first FAULT, with n spills, 107 ms and a dark LED |
| SpillDevice.FullRunAfterReset | src/ssm/SSMDeviceDriverMock.C:77-94 | after reset it takes 8n + 1 waits with the same counters, and resetting or initializing again starts the same run over |
| SpillDevice.SpillSequenceFacts | src/ssm/SSMDeviceDriverMock.C:57-75 | n spill cycles have 8n states, n of them SPILL, none FAULT |
| SpillDevice.LoadedStates | src/ssm/SSMDeviceDriverMock.C:57-75 | the eight states of each loaded spill, in order |
| Controllers.ExecutesLongestPrefix | src/mu2eerd/Controller.C:138-202 | exactly the longest handled prefix of the inbox is executed, in order; the first message after it alone decides how the loop ends: SHUTDOWN returns, and an interrupted receive, a failed one, a wrong size and an unknown command each throw their own error |
| Controllers.InboxIsARun | src/mu2eerd/Controller.C:138-202 | processing an inbox is a run of the two-thread model that accepts exactly the executed commands |
| Controllers.HandlerIsARun | src/mu2eerd/Controller.C:113-136 | each handler is one accepted command of that model |
| CommandHistories.CrashIffSecondStart | src/ssm/SpillStateMachine.C:97-111 | in every run the process is dead, or dies with the controller's next step, exactly if a START was accepted after an earlier one and nothing between them ended its thread |
| CommandHistories.EveryInterleavingExecutesTheSame | src/mu2eerd/Controller.C:138-202 | whatever the interleaving, a run of an inbox that has come to rest accepted exactly the prefix the loop executes and the message that stopped it, and ended in the same way |
| CommandHistories.LoopStopsAtClosing | src/mu2eerd/Controller.C:138-202 | the loop stops exactly at a second START or a message that ends it |
| CommandHistories.EveryRunIsBounded | src/mu2eerd/Controller.C:138-202 | a run that accepted k commands on a sequence of n states has at most 210 k (n + 2) steps, so every inbox comes to rest |
| Controllers.Controller.ProcessMessages | src/mu2eerd/Controller.C:138-202 | the loop in place ends in the state, with the commands and in the way the fold over the inbox says |
| Controllers.Controller.Start | src/mu2eerd/Controller.C:209-231 | the published daemon state goes INITIALIZING, STARTUP, RUNNING and then to SHUTDOWN exactly if a SHUTDOWN message stopped the loop |
| CircularBuffers.EveryRunTallies | src/api/CircularBuffer.C:29-76 | over every run of calls size, overwrites and dequeues add up to the enqueues, head and tail are their counts modulo the capacity, and each slot holds the latest item of its index |
| CircularBuffers.CorrectedHeadReadsNewest | src/api/CircularBuffer.C:29-76 | tail + 1 is congruent to head + size + overwrites, and read from head + overwrites the ring holds the newest items in order |
| CircularBuffers.RefinesQueue | src/api/CircularBuffer.C:29-64 | on runs without overwrites the slots from the head are the queue: dequeue drops its front, enqueue appends |
| CircularBuffers.HeadIsRightIff | src/api/CircularBuffer.C:46-64 | the head points at the oldest newest item exactly if the overwrites are a multiple of the capacity |
| CircularBuffers.TailReadsLastItems | src/api/CircularBufferTests.C:126-154 | once wrapped, the slots from tail + 1 are the last `capacity` items in order |
| CircularBuffers.HeadStaysBehind | src/api/CircularBufferTests.C:126-154 | enqueues alone leave the head at 0 with a full ring, whatever was overwritten |
| CircularBuffers.CircularBuffer.constructor | src/api/CircularBuffer.C:20-27 | an empty ring of any 16-bit capacity, usable exactly if the array can hold it |
| CircularBuffers.CircularBuffer.Dequeue | src/api/CircularBuffer.C:29-44 | the ring's new value; nothing on an empty ring |
| CircularBuffers.CircularBuffer.Enqueue | src/api/CircularBuffer.C:46-64 | the ring's new value; on a full ring the tail moves and the head does not |
| CircularBuffers.CircularBuffer.DataGet | src/api/CircularBuffer.C:102-112 | a slot by absolute index |
| CircularBuffers.FullFill | src/api/SpillStateMachineSMB.C:155-169 | from any valid ring a fill overwrites every slot: slot tail + 1 + k holds the wave at 15k degrees, the ring is full and the head where it was |
| CircularBuffers.FillTwice | src/api/SpillStateMachineSMB.C:155-169 | a second fill changes nothing at all |
| CircularBuffers.FreshFill | src/api/SpillStateMachineSMB.C:155-169 | on a fresh ring slot i holds the wave at 15i degrees, with period 24 |
| Waveforms.Shape.OneSample | src/api/SpillStateMachineSMB.C:123-133 | one round of the self-modifying loop writes the sample of the closed form, inside the array, and ends after the last one |
| Waveforms.Shape.ActualFalls | src/api/SpillStateMachineSMB.C:119-134 | the actual waveform falls strictly from the top to zero and equals the ideal one in the first block |
| Waveforms.Shape.ActualKeeps | src/api/SpillStateMachineSMB.C:125-132 | only values outside the dropped stretches are written |
| Waveforms.Shape.KeptOccurs | src/api/SpillStateMachineSMB.C:125-132 | every value outside the dropped stretches is written |
| Waveforms.Shape.ErrorIsStaircase | src/api/SpillStateMachineSMB.C:146-153 | ideal is actual plus error everywhere; the error lies between 0 and (m-1)D and climbs |
| Waveforms.Shape.DropsInBlock | src/api/SpillStateMachineSMB.C:119-134 | block b is where b stretches have been dropped |
| Waveforms.SourceShape | src/api/SpillStateMachineSMB.C:119-134 | with the source's constants 14500 of 16000 samples are written |
| Waveforms.SourceKeeps | src/api/SpillStateMachineSMB.C:123-133 | in numbers: the actual waveform keeps 0, all values above 15000, and of each lower thousand those from 1 to 900 |
| Waveforms.FirstDrop | src/api/SpillStateMachineSMB.C:123-129 | sample 998 is 15001 and sample 999 is 14900 |
| Waveforms.SamplesFit | src/ACNET/SSMDevice.C:175-178 | every sample of every waveform survives the narrowing to 16 bits |
| SharedBlock.SpillStateMachineSMB.constructor | src/api/SpillStateMachineSMB.C:15-19 | all three waveforms are drawn, the state is UNKNOWN and the ring is new with capacity 9800; every operation of the daemon keeps that |
| SharedBlock.SpillStateMachineSMB.Initialize | src/api/SpillStateMachineSMB.C:21-26 | draws the waveforms; drawing them again changes nothing |
| SharedBlock.SpillStateMachineSMB.IdealSpillWaveform | src/api/SpillStateMachineSMB.C:100-107 | the array is the descending ramp |
| SharedBlock.SpillStateMachineSMB.ActualSpillWaveform | src/api/SpillStateMachineSMB.C:119-134 | the loop terminates within the array and leaves the closed form with its zero tail |
| SharedBlock.SpillStateMachineSMB.ErrorSignalWaveform | src/api/SpillStateMachineSMB.C:146-153 | the pointwise difference is the staircase's closed form |
| SharedBlock.SpillStateMachineSMB.FillCircularBuffer | src/api/SpillStateMachineSMB.C:155-169 | the loop is the fill the lemmas speak of |
| AcnetDevice.ProxyAcceptsIff | src/ACNET/device.h:349-378 | for any signed offset a window is accepted exactly if aligned, starting before the end of the data, and ending inside it or past 2^31 |
| AcnetDevice.ProxyErrors | src/ACNET/device.h:349-378 | which error the proxy throws for which window |
| AcnetDevice.ScaledDown | src/ACNET/device.h:78-86 | unsigned division of a negative offset by 2 or 4 and the cut to 32 bits give the signed quotient |
| AcnetDevice.NarrowingKeeps | src/ACNET/device.h:665-670 | storing in a short loses nothing between -2^15 and 2^15 |
| AcnetDevice.NarrowingWraps | src/ACNET/device.h:665-670 | outside it the low bits are kept |
| AcnetDevice.ArrayView.Set | src/ACNET/device.h:203-214 | an index below the view's length is written and nothing else; any other throws and writes nothing |
| SSMDevices.WaveformReadIff | src/ACNET/SSMDevice.C:151-255 | over all lengths and signed offsets a waveform read succeeds exactly inside the waveform, and delivers that slice without loss; it reads outside exactly if the window starts before the waveform and ends in it |
| SSMDevices.UnderrunGetsThrough | src/ACNET/SSMDevice.C:156-165 | two bytes at offset -2 pass all checks |
| SSMDevices.WaveformReadErrors | src/ACNET/device.h:349-378 | which error each failing read gets, and that the handler's check fires only for ends past 2^31 or below zero |
| SSMDevices.AdjacentReadsJoin | src/ACNET/SSMDevice.C:151-255 | two adjacent reads both succeed exactly if the joined one does at an even split, and concatenate to it |
| SSMDevices.SSMDevice.WaveformAnswers | src/ACNET/SSMDevice.C:151-255 | an accepted read delivers the generators' closed forms, sample by sample |
| SSMDevices.SamplesInNumbers | src/ACNET/SSMDevice.H:75-81 | attribute 4 is the ramp from 15999, attribute 5 falls to 0 at sample 14499, and attribute 6 is their difference |
| SSMDevices.ScalarReadIff | src/ACNET/SSMDevice.C:28-76 | the state is read in 2 bytes, spill counter and time in spill in 4; a read succeeds exactly for whole elements that end at zero or with the first one |
| SSMDevices.ScalarReadErrors | src/ACNET/SSMDevice.C:28-76 | which error each failing scalar read gets |
| SSMDevices.SSMDevice.ScalarAnswers | src/ACNET/SSMDevice.C:42-72 | which register each scalar property delivers, and the failure without shared memory |
| SSMDevices.StateCodes | include/ssm.H:20-40 | the value of the state register in each state |
| SSMDevices.OtherAttributes | src/ACNET/device.h:594-604 | no property from 32 on, no reading property from 7 on, and a status-control reading that always fails |
| SSMDevices.HandlerErrors | src/ACNET/SSMDevice.C:156-165 | the checks of a handler for every window |
| SSMDevices.SSMDevice.GetProperty | src/ACNET/device.h:591-605 | the caller's buffer gets exactly the specified elements in front and keeps the rest; on any error it is untouched |
| SSMDevices.SSMDevice.SpillRead | src/ACNET/SSMDevice.C:151-187 | the copy loop never meets the view's range check and copies exactly the window |
| SSMDevices.SSMDevice.ScalarRead | src/ACNET/SSMDevice.C:28-76 | the reading, or the error, of the three scalar properties, for signed offsets too |
| SSMDevices.SSMDevice.constructor | src/ACNET/SSMDevice.C:420-428 | the table of requests starts free |
| SSMDevices.FastViewFits | src/ACNET/device.h:386-415 | the fast proxy builds a view of 2666 elements exactly for aligned offsets that leave room for it, or are negative and aligned as unsigned numbers |
| SSMDevices.FastFieldIsBounded | src/ACNET/SSMDevice.C:365-372 | on any ring, with a wave bounded by one, every field after the first and below the capacity is between 0 and 200 |
| SSMDevices.FastFieldHasPeriod24 | src/ACNET/SSMDevice.C:365-372 | on a fresh ring the fields repeat every 24 elements |
| SSMDevices.TruncatesTowardsZero | src/ACNET/SSMDevice.C:368 | the conversion of a point to an integer drops the fraction towards zero |
| SSMDevices.SSMDevice.GetPropertyFast | src/ACNET/device.h:621-637 | succeeds exactly for the one fast attribute, a fitting offset, a registered id and shared memory; then all 2666 elements and nothing else are written, and with a wave bounded by one the answer is the byte count 15996 and then 100 (1 + wave(15 i)) without its fraction, from 0 to 200 with period 24 |
| SSMDevices.SSMDevice.FastAnswerHasShape | src/ACNET/SSMDevice.C:365-381 | that shape, and these values, follow for every answer of the device |
| SSMDevices.SSMDevice.FastReply | src/ACNET/SSMDevice.C:359-381 | fills a copy of the block's ring and puts its points, and the byte count, into the view |
| SSMDevices.SSMDevice.ReadFast | src/ACNET/SSMDevice.C:326-384 | the same inside the handler, with the error count and the clean-up on failure |
| SSMDevices.SSMDevice.CopyPoints | src/ACNET/SSMDevice.C:365-373 | the copy loop covers the view, never leaves it, and changes only the integer part of each element |
| SSMDevices.SSMDevice.FindRequest | src/ACNET/SSMDevice.C:336-342 | the first slot holding an id, or four |
| SSMDevices.SSMDevice.InitCollection | src/ACNET/SSMDevice.C:263-317 | the table and the error count after a registration, for each outcome |
| SSMDevices.SSMDevice.CleanupCollection | src/ACNET/SSMDevice.C:392-418 | the table after the store as it is written |
| FtpTable.SlotsAreRequests | src/ACNET/SSMDevice.C:263-317 | over every run of calls with non-zero ids the slots in use are the live requests, a registration fails exactly with four live, and a slot is found exactly if its id is live: always for the intended clean-up, and for the written one if its stores are harmless |
| FtpTable.RegistersUnlessFull | src/ACNET/SSMDevice.C:292-317 | registering fails exactly on a full table and else adds one request |
| FtpTable.ReleaseFreesOne | src/ACNET/SSMDevice.C:400-414 | the intended clean-up frees one slot of the request and no other |
| FtpTable.WrittenReleaseIsRightIff | src/ACNET/SSMDevice.C:414-415 | the written store does so exactly if the id is not registered or sits in the slot of the same number |
| FtpTable.WrittenReleaseFreesAnother | src/ACNET/SSMDevice.C:414-415 | a concrete table in which cleaning up request 1 frees request 2 |
| FtpTable.RateFilterIff | src/ACNET/SSMDevice.C:275-288 | which events pass the filter; the exception for 6670 never matters |
| FtpTable.FirstIndex | src/ACNET/SSMDevice.C:336-342 | the first occurrence, and the length exactly if there is none |
| Tclk.CountersAreConserved | src/tclk/TCLKSubsystem.C:46-60 | each counter rises by the number of its events before the first ending one, the two ending events are never counted, and the increments add up |
| Tclk.ReceivedPrefix | src/tclk/TCLKSubsystem.C:46-60 | what is counted is the longest prefix without an ending event |
| Tclk.CountsEveryEvent | src/api/TCLKSMB.C:38-41 | counting a list of events raises each counter by its occurrences |
| Tclk.ReceiveEvents | src/tclk/TCLKSubsystem.C:46-60 | the receiver loop terminates with those counters |
| Tclk.TCLKDecoderDriverMock.WaitForEvents | src/tclk/TCLKDecoderDriverMock.C:68-79 | the next programmed event, or the never event for ever |
| Tclk.TCLKDecoderDriverMock.EventSequenceSet | src/tclk/TCLKDecoderDriverMock.C:52-61 | the programmed sequence replaces the old one |
| Tclk.TCLKDecoderDriverMock.EventListAdd | src/tclk/TCLKDecoderDriverMock.C:26-40 | duplicates are ignored, but a full list refuses even those |
| Tclk.TCLKSMB.constructor | src/api/TCLKSMB.C:43-49 | all counters but the last are cleared |

## Left out

Step size and threads:

- One transition, one clear or refill of the sequence, and one field write are atomic steps; finer steps on an unlocked container have no defined meaning. Copies are whole or split in a read and a write.
- Drawing the waveforms again at the end of each publication is not a step of the two-thread model, because it changes nothing (`SpillStateMachineSMB.Initialize`). In-place redraws seen by a concurrent reader are not modelled.
- `run()` with a live handle ends the process; the short time with two SSM threads before that is not modelled.
- The class `SpillStateMachine` is one call at a time: its thread makes its steps when `stop()` joins it. What interleaving adds is in the two-thread model.
- `SHUTDOWN` and unknown commands leave the message loop, and the destructor then stops the thread; the rest of process teardown is not modelled.
- Delays, sleeps and real time: a wait is a step, a poll is a step.

Clients and the queue:

- One client is modelled. Several clients at once, and the ACNET control write that sends START without looking at the flag, are not.
- The RESET, FAULT and SSM_INIT commands only send; the loops in which the command-line client waits for their effect are not modelled.
- The POSIX queue is a sequence of at most three messages with a blocking send; opening, unlinking and failing sends are left out.

Numbers and memory:

- Spill, event and error counters are unbounded; the wrap of unsigned counters is left out, and time-in-spill is a number of milliseconds rather than a float.
- The sine is any function from whole degrees to reals; rounding of doubles is left out.
- Offsets of ACNET reads are any signed 32-bit numbers, `size_t` has 64 bits, and a read before the start of a waveform ends the model's call, because what it finds is undefined. The signed 32-bit sum of the proxies and the narrowing to shorts are modelled; other overflows of `Index` and `Count` are not.
- Circular buffers are used with a capacity from 1 to 9800; with 0 the remainder, and beyond 9800 the store, is undefined.
- Memory the source leaves uninitialised is arbitrary in the model; the six bytes of a fast-read element are an integer field and a rest that is never written.
- The waveform constants 16000, 1000 and 100 are generalised to m blocks of a period P with D dropped, and used as `SOURCE_SHAPE`.

Fast reads:

- SSMDevices.SSMDevice.CleanupCollection: a store outside the table is modelled as no store, because what it would hit is undefined.
- The data rate of a request is written and never read, and is not modelled. A fast read with request id 0 finds any free slot; the allocator theorem is about non-zero ids.

Other parts:

- `DaemonController`, `SystemController` and `Mu2eerdDevice` are left out: process control with one-branch guards. So are configuration, printing and state names.
- The ADC stub is the same slice read as the waveforms; the multicast clock driver calls a library that is not part of this model.
- Setting properties, write proxies and the proxies of scalar type are left out.
