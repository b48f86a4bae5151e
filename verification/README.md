# Verified model of the raspberries repository

This project models the parts of the repository that keep state over unbounded runs, and proves
what they do on every run: the infrared alarm daemon `iralarmd` with its control tool, the
MCP23S17 port expander driver, and the blink counters of the network LED sniffer.

`dafny verify dfyconfig.toml` checks everything.

| file | what it models |
|---|---|
| `AlarmLoop.dfy` | the endless loop of the daemon: one tick as a function, the static variables and the loop as a class |
| `AlarmTrace.dfy` | theorems about all runs of that loop |
| `FlankCounter.dfy` | `ir_recvd` under its semaphore, interleaved with any number of other threads |
| `WorkerProtocol.dfy` | main loop and alarm worker interleaved at single memory accesses, with suspend, resume, data cell and output pins |
| `PinCourse.dfy` | what the output pins show over a run: the scripts of the callbacks, one after the other |
| `ResumeSafety.dfy` | the exact condition under which a resume wakes the worker, and what happens when it does not |
| `DataCell.dfy`, `DeliveryOrder.dfy` | the data cell of a worker: what its callbacks are told, and in which order |
| `LockOrder.dfy` | lock programs of all threads: no deadlock, no race on the data they guard |
| `PinHandoff.dfy` | the one-slot handoff from `__isr_init` to interrupt threads |
| `ThreadPool.dfy` | the slot table of `irthread.c` |
| `SharedMemory.dfy`, `ConfigReload.dfy` | layout of the shared segment, typed get and set, and how a setting reaches the daemon |
| `ShellArgs.dfy` | argument splitting in the control tool's shell |
| `PortExpander.dfy` | register cache, SPI frames and the device's register file |
| `GpioRegisters.dfy` | packed function-select words and SET/CLR registers of the BCM2835 |
| `Blinker.dfy` | the blink counters of `netled` |
| `Wrappers.dfy` | `Option` |

Concurrent code is modelled as a state machine: a state, labelled operations with program
counters, and runs as sequences of enabled operations, under sequential consistency. A theorem
about "every interleaving" quantifies over all such sequences. Sequential code that updates state
is a class whose methods are proved against specification functions. Theorems about runs are stated
from the operations of the run and from observable fields, not through the functions that describe
a step.

## Three results that are not what one might expect

* **Resuming the alarm worker can fail.** `irthread_resume` works without the mutex.
  `ResumeSafety.AlarmCanBeLost` is a run that ends with an alarm up and the worker parked for good.
  `ResumeWorksIff` is the exact condition: with an alarm up, the worker stays awake for as long as
  the alarm lasts if and only if the latest resume did not make its decisive step (finding the flag
  clear, or clearing it) while the worker carried None, and no missed signal is outstanding. Neither
  failure repairs itself: `CarriedResumeSticks` and `MissedSignalIsForever` hold in every
  continuation up to the next clearing of the flag, or the next spurious wake-up.
* **The shared segment is requested too small.** `irmem_init` asks for the sum of the cell sizes but
  scales the offsets by `sizeof(int)`. `RequestedIsTooSmall` shows that the request suffices only
  for a single cell; `FitsPagesIff` says exactly when the page-rounded mapping suffices, which for
  the configured table it does.
* **A failed `pthread_create` costs a slot for good.** `ThreadPool.LeakedSlotsAreFailedCreations`:
  after any legal calls there are exactly as many lost slots as starts that took a slot and could
  not create their thread, so none is lost if and only if there was no such start.

Where the repository disagrees with itself the code that runs is followed: the prototype at
`portexpander/portex.h:62` names the second parameter of the cached write a pin number, the
definition uses it as a mask.

## Model

| member | source | states |
|---|---|---|
| AlarmLoop.Daemon.Cycle | iralarm/iralarmd.c:583-628 | one pass through the loop body moves the state as `Step` says; irAlrmCycls rises by one if ir_recvd < ir_minrecvd and falls by one, not below 0, otherwise, and is 0 after a call-off; logs exactly the alarm actions of the transition, leaves both workers' data cells equal to astate, resumes the alarm worker exactly on a raise, publishes the previous state in shared memory and zeroes the flank count |
| AlarmLoop.Daemon.Run | iralarm/iralarmd.c:572-629 | over any sequence of sleeps with flanks and threshold changes the loop's state, action log and published state are those of the specified run |
| AlarmLoop.Daemon.CallOff | iralarm/iralarmd.c:620-623 | calling off publishes None to both workers, logs one undo and zeroes the alarm counter |
| AlarmTrace.CyclsAreMaxSuffix | iralarm/iralarmd.c:583-588 | on every run the saturating counter is the maximum over suffixes, the empty one included, of the ticks with flanks < ir_minrecvd minus the others, since the last reset |
| AlarmTrace.RaisedIffExceedsSinceReset | iralarm/iralarmd.c:591-602 | on every run, while there is no alarm, a tick raises one exactly when after it some suffix of the history since the last reset exceeds ir_minalarm |
| AlarmTrace.RaisedAtFirstExcess | iralarm/iralarmd.c:583-602 | for any ir_minalarm at each tick, tick n raises the alarm if and only if it is the first tick after which some suffix exceeds the ir_minalarm then in force |
| AlarmTrace.QuietIffNoSuffixExceeds | iralarm/iralarmd.c:591-602 | no alarm up to tick n if and only if after none of these ticks a suffix exceeds the ir_minalarm then in force |
| AlarmTrace.FewerFlanksAlarmNoLater | iralarm/iralarmd.c:583-601 | of two runs from the same None state with the same thresholds, the one that never receives more flanks raises its first alarm no later |
| AlarmTrace.EpisodeGoodTicks | iralarm/iralarmd.c:603-625 | with constant ir_rstalarm a completed episode has between rst+1 and 2(rst+1) good ticks after its entry tick |
| AlarmTrace.ShortestEpisode | iralarm/iralarmd.c:609-614 | the lower bound is attained for every ir_rstalarm |
| AlarmTrace.LongestEpisode | iralarm/iralarmd.c:604-624 | the upper bound is attained for every ir_rstalarm |
| AlarmTrace.ActionsAlternate | iralarm/iralarmd.c:595-622 | doAlarmAction and undoAlarmAction strictly alternate starting with do, and there is no alarm exactly when their number is even |
| AlarmTrace.ActiveEntry | iralarm/iralarmd.c:94-102 | ACTIVE is entered only from a PREACTIVE phase that began with a raise, kept its start time, and lies more than 10 s back |
| AlarmTrace.PreactiveExit | iralarm/iralarmd.c:603-616 | a PREACTIVE alarm becomes ACTIVE with exactly the ticks more than 10 s after its raise, and failing that is called off exactly when the good ticks since the raise exceed ir_rstalarm |
| AlarmTrace.ActiveExit | iralarm/iralarmd.c:617-625 | ACTIVE is left, to NONE, exactly when the good ticks since its own entry exceed ir_rstalarm |
| FlankCounter.MutualExclusion | iralarm/iralarmd.c:84-88 | in every interleaving at most one participant is inside the semaphore |
| FlankCounter.FlanksAreConserved | iralarm/iralarmd.c:84-88 | with load and store split, counted by the operations of the run: every ir_flank call stores its flank once, and the stored flanks are those of the ticks judged so far plus ir_recvd |
| FlankCounter.ConcurrentLoopIsSequential | iralarm/iralarmd.c:578-628 | at every moment of every interleaving the alarm machine is the sequential run over the judgements made, each with the flanks stored since the one before |
| FlankCounter.FlankAlone | iralarm/iralarmd.c:84-88 | with the semaphore free, ir_flank can run and adds one to ir_recvd and nothing else |
| FlankCounter.TickAlone | iralarm/iralarmd.c:578-628 | with the semaphore free, a tick can run, judges all of ir_recvd and zeroes it |
| FlankCounter.SemaphoreComesFree | iralarm/iralarmd.c:84-88 | in every reachable state whoever is inside the semaphore can leave within three steps of its own |
| WorkerProtocol.SpeakerOnlyWhenActive | iralarm/iralarmd.c:236-243 | in every interleaving the speaker pin is high only inside a callback for ACTIVE |
| WorkerProtocol.CallbackLeavesPins | iralarm/iralarmd.c:228-257 | in every interleaving a callback leaves the speaker low and the alarm LED high exactly if it served ACTIVE |
| WorkerProtocol.SilentUntilNextAlarm | iralarm/iralarmd.c:250-255 | once None is published, both outputs are low from the end of a callback for None until the next published alarm |
| PinCourse.PinsFollowScripts | iralarm/iralarmd.c:228-257 | in every interleaving the levels the two pins take are exactly those of the callbacks begun so far, played one after the other, and a beginning of that while a callback is under way |
| PinCourse.OneCallback | iralarm/iralarmd.c:235-256 | from the beginning of a callback to its end, whatever is interleaved: for ACTIVE the speaker becomes high exactly if s_speaker was above 0, then low, and the LED ends lit; for PREACTIVE the LED flashes; for NONE it goes out |
| PinCourse.AwakeWorkerServes | iralarm/irthread.c:34-47 | a worker neither suspended nor waiting can, by its own steps, go through one whole callback for the value in its hand or the published one |
| ResumeSafety.ResumeWorksIff | iralarm/irthread.c:123-130 | after every run with an alarm up, the worker is neither suspended nor parked in any continuation while the alarm lasts, if and only if the latest resume was not decided while the worker carried None and no missed signal is outstanding |
| ResumeSafety.SuspendedIffCarried | iralarm/irthread.c:113-130 | in every run, with an alarm up the worker is suspended or bound to suspend itself exactly if the latest resume was decided while it carried None |
| ResumeSafety.StrandedIffMissed | iralarm/irthread.c:34-47 | in every run, outside the signal step, the worker waits with its flag clear exactly if a signal fell between its test and its wait and no spurious wake-up has followed |
| ResumeSafety.CarriedResumeSticks | iralarm/irthread.c:123-130 | a resume decided while the worker carries None leaves it suspended or bound to be in every continuation until a resume next clears the flag |
| ResumeSafety.MissedSignalIsForever | iralarm/irthread.c:34-47 | after a missed signal the worker waits in every continuation, through all later alarms and resumes, until a spurious wake-up |
| ResumeSafety.DisciplineSuffices | iralarm/irthread.c:113-130 | in every run in which no resume is decided while the worker carries None and no signal is missed, an alarm finds the worker neither suspended nor parked |
| ResumeSafety.AlarmCanBeLost | iralarm/irthread.c:123-130 | a concrete run, from the assignment of thrd_alarm on, ends with an alarm up and the worker parked with its flag clear, so that no later resume signals it |
| DataCell.CallbacksSeeStatesInOrder | iralarm/irthread.c:34-47 | for any calls of irthread_setdata and any suspending, parking and waking, callbacks receive the values passed to it in order, with repeats and skips |
| DataCell.NoStaleDelivery | iralarm/irthread.c:132-138 | a callback whose pick-up follows a publication receives that value or a newer one |
| DataCell.Delivers | iralarm/irthread.c:34-47 | from rest a worker that is not suspended, or is woken, passes the value in the cell to its callback |
| DataCell.EverybodyGetsOn | iralarm/irthread.c:113-138 | from every reachable state both threads can come to rest with the mutex free |
| DeliveryOrder.AlarmWorkerSeesStatesInOrder | iralarm/irthread.c:37-45 | the same for the alarm worker inside the full protocol |
| DeliveryOrder.EveryStateIsPublished | iralarm/iralarmd.c:597-622 | the values published to the alarm worker are the states the machine enters, each once and in order, at most the latest pending |
| DeliveryOrder.MachineIsSequential | iralarm/iralarmd.c:572-629 | in every interleaving the alarm machine is the sequential run over the ticks made so far |
| DeliveryOrder.MainPublishesAlone | iralarm/iralarmd.c:589-628 | unless the worker keeps the mutex, the main thread's own steps lead to its sleep with the current state published |
| LockOrder.ProgramsAreOrdered | iralarm/iralarmd.c:268-308 | every lock program of every thread keeps the order semaphore, mtx_status, mtx_alarm, mtx_bsy, touches shared data only under its lock, and ends with nothing held |
| LockOrder.NoRace | iralarm/iralarmd.c:228-233 | in every interleaving of any number of these threads no two are ever about to touch the same datum among the counters, the alarm cell of the shared memory, the LED times, the speaker switch and the workers' data cells |
| LockOrder.NoDeadlock | iralarm/iralarmd.c:347-362 | in every interleaving of any number of these threads no nonempty set of threads waits for locks held within the set |
| LockOrder.AllCanFinish | iralarm/irthread.c:37-42 | from every reachable state all threads can finish their programs or park, with all locks free |
| PinHandoff.HandlersServeTheirCallers | iralarm/irpio.c:390-432 | with any number of concurrent callers each interrupt thread serves the pin of the call that created it, one thread per call, ready when the call returns |
| PinHandoff.EveryCallCanReturn | iralarm/irpio.c:423-431 | from every reachable state all calls can return, with the mutex free |
| ThreadPool.Pool.Start | iralarm/irthread.c:57-91 | takes the first free slot, or fails changing nothing when all four are in use; returns the slot number unless creation fails |
| ThreadPool.Pool.Stop | iralarm/irthread.c:93-111 | frees a live slot without deallocating it and refuses ids outside the table; returns 0 exactly when the id is valid and none of the five pthread calls reports an error |
| ThreadPool.Pool.Suspend | iralarm/irthread.c:113-120 | sets the suspend flag of one record and nothing else |
| ThreadPool.NullSlotsFormSuffix | iralarm/irthread.c:64-74 | after any legal calls the never-allocated slots form a suffix |
| ThreadPool.StartReturnsSmallestFree | iralarm/irthread.c:64-90 | a start returns the smallest slot neither live nor leaked, never a live id, and fails exactly when there is none or creation fails |
| ThreadPool.LeakedSlotsAreFailedCreations | iralarm/irthread.c:64-90 | after any legal calls there are exactly as many lost slots as starts that took a slot and failed to create their thread; none is lost if and only if there was no such start |
| ThreadPool.FailedCreationLosesItsSlot | iralarm/irthread.c:77-90 | a slot whose thread could not be created stays in use whatever legal calls follow |
| SharedMemory.CellsAreDisjoint | iralarm/irshmem.c:35-54 | for every type table cells are 4-byte aligned, disjoint and in table order |
| SharedMemory.FitsIffLastFits | iralarm/irshmem.c:52-54 | a segment contains all cells exactly when it contains the last one |
| SharedMemory.RequestedIsTooSmall | iralarm/irshmem.c:39-53 | the requested size contains all cells exactly when there is only one |
| SharedMemory.FitsPagesIff | iralarm/irshmem.c:39-53 | the page-rounded mapping contains all cells exactly when 4 * requested <= 4096 + 3 * last cell, that is when the scaled layout ends within 4096 bytes |
| SharedMemory.SmallTablesFitTheirPages | iralarm/irshmem.c:39-53 | tables of up to 1024 bytes fit the mapped pages, tables of more than 1030 bytes do not |
| SharedMemory.DecodeEncode | iralarm/iralarmctl.c:96-113 | storing w bytes and reading them back yields the value mod 256^w |
| SharedMemory.LittleEndian | iralarm/iralarmctl.c:96-113 | the numbers that one, two and four bytes stand for |
| SharedMemory.WidthOfModulus | iralarm/irshmem.h:22-24 | the four object types hold the integers below 2^8, 2^16, 2^32 and 2^64 |
| SharedMemory.StoreRefinesUpdate | iralarm/iralarmctl.c:89-116 | for every type table a set is, on the abstract values, the update of one entry with the value mod 2^8, 2^16, 2^32 or 2^64 |
| SharedMemory.CellsAreIndependent | iralarm/iralarmctl.c:51-116 | after any sequence of sets each id reads as the last value set to it |
| SharedMemory.Segment.LayOut | iralarm/irshmem.c:35-38 | the first loop computes the offset table |
| SharedMemory.Segment.Attach | iralarm/irshmem.c:52-54 | the second loop computes the scaled cell addresses |
| SharedMemory.Segment.GetPtr | iralarm/irshmem.c:59-64 | the cell's address, or nothing for an unknown id |
| SharedMemory.Segment.DoGet | iralarm/iralarmctl.c:51-74 | reads the abstract value of the id |
| SharedMemory.Segment.DoSet | iralarm/iralarmctl.c:89-116 | changes the abstract value of the id to the truncated value, and no byte outside its cell |
| ConfigReload.TableLayout | iralarm/config.h:45-56 | the configured table has the widths the daemon's pointers assume, requests 29 bytes and fits the 4096 mapped |
| ConfigReload.Daemon.Hup | iralarm/iralarmd.c:346-363 | afterwards every reloaded variable holds the value of its own cell, named cell by cell, and s_xmpp is unchanged in builds without XMPP |
| ConfigReload.Daemon.PublishDefaults | iralarm/iralarmd.c:543-556 | before the loop shared memory agrees with the variables and the alarm cell is None |
| ConfigReload.SetAndHup | iralarm/iralarmctl.c:266-287 | a set followed by SIGHUP changes exactly the addressed variable, to the truncated value, and agreement holds again; every refusal changes nothing |
| ShellArgs.ShellGetArg | iralarm/iralarmctl.c:126-144 | succeeds exactly when the command word is followed by nargs words, and stores them cut and padded |
| ShellArgs.TokensOfJoin | iralarm/iralarmctl.c:132-133 | splitting undoes joining words with any spaces around and between them |
| ShellArgs.JoinOfTokens | iralarm/iralarmctl.c:132-133 | and every string is its words, which are free of spaces, with some spaces around and between them |
| ShellArgs.Tokenizer.Next | iralarm/iralarmctl.c:132-138 | a strtok call yields the next word and leaves exactly the remaining words |
| PortExpander.FrameReachesPort | portexpander/portex_spi.c:59-67 | the device's decoding of the control byte 0x40 accepts the driver's frame and writes the addressed port and its latch |
| PortExpander.Driver.WriteCached | portexpander/portex_spi.c:70-78 | clears the masked bits of one cache entry if the value is 0 mod 256 and sets them otherwise, and sends the entry; a failing transfer leaves the device alone |
| PortExpander.Driver.ReadCached | portexpander/portex_spi.c:81-85 | returns one cached bit |
| PortExpander.Driver.Probe | portexpander/portex_spi.c:87-114 | refuses without writing unless both reads give 0xFFFF in 16 bits, as an error return of -1 does; then makes the pins of each port outputs if its transfer works, and changes nothing else |
| PortExpander.Driver.Free | portexpander/portex_spi.c:166-170 | each of the four transfers, if it works, lowers one port or turns it to inputs; every other register keeps its value |
| PortExpander.Driver.GpioSet | portexpander/portex_sysfs.c:82-98 | is the specified operation on cache and device; of the sixteen cached pins the addressed one becomes value mod 256 != 0; unparsable text changes nothing |
| PortExpander.Driver.GpioAllSet | portexpander/portex_sysfs.c:55-64 | likewise, all sixteen cached pins become value mod 256 != 0 |
| PortExpander.Driver.GpioGet | portexpander/portex_sysfs.c:66-80 | returns the cached bit of the pin |
| PortExpander.OpRefines | portexpander/portex_sysfs.c:55-98 | from any cache and any device registers a sysfs write is the write on sixteen booleans, with any transfer result |
| PortExpander.DriverRefinesPins | portexpander/portex_spi.c:70-78 | from any cache and any device registers, after any sysfs writes with any SPI failures, cache and device hold the sixteen wanted and shown booleans of the abstract run |
| PortExpander.PinReadsLastWritten | portexpander/portex_sysfs.c:66-98 | from any start each pin reads back the last value written to it, nonzero mod 256, or what the cache held at first, whatever the transfers did |
| PortExpander.DeviceShowsLastTransfer | portexpander/portex_spi.c:59-78 | from any start each pin of the device shows what was last written to it up to its port's last working transfer, or what it showed at first if there was none |
| PortExpander.DirectionsAreKept | portexpander/portex_sysfs.c:55-98 | no sysfs write changes the direction of a pin |
| PortExpander.DeviceEqualsCacheAfterSuccess | portexpander/portex_spi.c:70-78 | from any start a port register of the device equals the cache whenever the port's latest write worked |
| GpioRegisters.Gpio.PinMode | iralarm/irpio.c:313-342 | the read-modify-write leaves GPIO g with function 0 for INPUT, 1 for OUTPUT, ALT0 = 4 or ALT5 = 2 for PWM_OUTPUT where it exists, and every other GPIO with its own |
| GpioRegisters.Gpio.DigitalWrite | iralarm/irpio.c:344-354 | one bit to the SET or CLR register: the pin becomes high unless the value is LOW, the others of 0..63 keep their levels, and pins outside are ignored |
| GpioRegisters.ModeSetChangesOneGpio | iralarm/irpio.c:112-131 | decoded from its three bits, a mode change gives one GPIO the hardware's number of the function asked for, and no other GPIO changes |
| GpioRegisters.ModeSetKeepsRest | iralarm/irpio.c:325-334 | the other words and the two spare bits of the word are kept |
| GpioRegisters.FieldsHoldLastModes | iralarm/irpio.c:318-334 | after any mode changes each of GPIOs 0..49 has the function its last accepted mode asks for |
| GpioRegisters.WriteChangesOnePin | iralarm/irpio.c:162-174 | write-one-to-set/clear changes one pin's level and no other's |
| GpioRegisters.SetRegisters | iralarm/irpio.c:162-167 | words 7 and 8 of the block raise the pins of the two level words |
| GpioRegisters.ClearRegisters | iralarm/irpio.c:169-174 | words 10 and 11 lower them |
| GpioRegisters.PinsHoldLastLevels | iralarm/irpio.c:344-354 | after any writes each of pins 0..63 has the level last written |
| Blinker.Leds.OnPacket | netled/sniffer.c:171-187 | counts the packet for the first matching class only |
| Blinker.Leds.BlinkAll | netled/sniffer.c:309-324 | one pass is one turn at every LED in order |
| Blinker.EveryLedAlternates | netled/sniffer.c:302-325 | in every interleaving outputs alternate High, Low from High; the count is at most 5; two outputs, made or pending, per packet that finds the count below 4 |
| Blinker.QuietLedGoesDark | netled/sniffer.c:309-324 | an LED without packets has a zero counter and Low as last output after five turns |

## Left out

- AlarmLoop.Daemon.Cycle: counters and clock are unbounded integers; the wrap-around of `size_t` and of the `(int) difftime` cast is not modelled.
- AlarmLoop.Daemon.Run: the endless loop is cut after any finite number of ticks.
- SharedMemory.Segment.DoSet: an INT64 cell takes its value from an eight-byte `unsigned long`; on a 32-bit system the code reads beyond the variable, and no configured cell is that wide.
- ThreadPool.Pool.Stop: the results of signalling, cancelling and joining are inputs, so termination of the thread is not claimed; the records are values in an array, not heap objects behind pointers.
- LockOrder.NoRace: the suspend flag, and the cells of the shared memory that SIGHUP reads, are not among the data, as the source does not guard them by one lock.
- LockOrder.NoDeadlock: the semaphore is treated as a lock with an owner, as FlankCounter.MutualExclusion justifies; shutdown and locks inside library calls are not modelled.
- PinHandoff.HandlersServeTheirCallers: thread creation succeeds, and a pin is never negative.
- PortExpander.FrameReachesPort: register numbers are taken as the device maps them with IOCON.BANK=1; which mode the chip is in is not modelled, as the driver never sets it.
- PortExpander.Driver.Probe: the two values read are inputs, because what the device returns depends on its addressing mode.
- GpioRegisters.Gpio.PinMode: takes the GPIO number after the table lookup, 0..49; the `int` table read through a byte pointer is not part of this model, and the PWM register writes that follow are left out.
- What the alarm worker may do between its creation and the assignment of its number to `thrd_alarm` (iralarm/iralarmd.c:560) is not modelled: runs start after the assignment.
- Callbacks may run while the worker is suspended, because its wait is not in a loop; the protocol model allows it through spurious wake-ups and nothing is claimed against it.
- The status worker's LED patterns, PWM setup, board detection, mmap, poll and sysfs file descriptors.
- XMPP messages, camera process, daemonizing, option parsing, logging and install scripts.
- Packet classifiers, filter strings and pcap setup of the sniffer; the classifiers' answers are inputs.
- SPI device registration, kernel module entry points, `gpio_dir_*` and `gpio_all_get`, which the source does not implement.
