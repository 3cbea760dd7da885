# Verified model of the automotive controller

This project models the parts of the controller that decide what the vehicle's
relays, displays and links do, and proves what they keep over whole runs. It is
written in Dafny 4.11; `dafny verify dfyconfig.toml` checks all of it.

Code that changes state in place is a class or a method with loops here; each
such method is proved against a specification function, and the theorems are
about those functions. The files follow the program:

| file | models |
|---|---|
| `RwLock.dfy` | the reader/writer lock: one event is one line of one thread, for any number of threads, with spurious wakeups and any choice of the signalled sleepers |
| `Ring.dfy`, `UsartTransmit.dfy`, `UsartReceive.dfy` | the interrupt-driven USART: the main program's functions split into single accesses to shared memory, the interrupts between any two of them |
| `Records.dfy`, `OutputList.dfy` | output records and the sorted linked list that stores them: nodes, data and the callers' pointers on the heap |
| `ListLock.dfy` | the list's operations under the lock |
| `Bits.dfy`, `Relays.dfy` | 40 relays packed into six bytes: the bank table, the shadow bytes, the card's registers |
| `Engine.dfy` | the output engine as a state machine of atomic steps (input edge, simulated input, second, posted and served command), what each step keeps (module `EngineSteps`), and the tasks in place (module `Controller`), each method proved equal to its step |
| `EngineSafety.dfy` | what every run of the engine keeps: emergency stop, timed outputs |
| `EngineOutputs.dfy` | what set_output and the second do to a relay, type by type |
| `EngineCommands.dfy` | what each command does to relays, records and inputs |
| `EngineStart.dfy` | START_SEQ across its pauses |
| `EngineClock.dfy` | the engine's running time and the lights it switches, over runs |
| `EngineInputs.dfy` | the inverted input index and what a changed input bit drives |
| `NmeaText.dfy`, `NmeaChecksum.dfy`, `NmeaDecimal.dfy` (with module `NmeaRescale`), `NmeaScan.dfy`, `NmeaFields.dfy`, `NmeaValues.dfy` | NMEA 0183 sentences (IEC 61162-1, section 7.2): checksum and its emitter, fixed-point numbers and rescaling, the format-driven scanner, the scanner in terms of fields, what each directive stores |
| `Fan.dfy` | the cooling-fan thermostat of the STM32 |
| `SerialLink.dfy` | the serial line between STM32 and controller: packing, framing, and the configuration messages (module `Config`) |
| `StringTable.dfy` | the packed EEPROM string table, its builder and its two lookups |
| `Bcd.dfy`, `Display.dfy` | the speed display: BCD conversion, digits, and the receive interrupt's frames |
| `Wrappers.dfy`, `Arithmetic.dfy` | what several files share: a value that may be missing, powers of ten, products and quotients |

Inputs from outside are parameters: what a card register reads, which thread is
scheduled, which sleeper a signal wakes, what a sensor returns, what arrives on a
line. Outputs to devices are sequences or arrays of the values written.

## Findings

Places where the code does something other than its comments or names suggest.
The model follows the code; each is stated as a lemma or a contract.

- `minmea_rescale` is commented "Rounds towards zero". It does so exactly when its
  result does not exceed the number (`NmeaRescale.RoundsTowardsZeroIff`); to a
  coarser scale that divides the old one, exactly when adding half a step does not
  carry (`NmeaRescale.InsideIffNoCarry`), and then the result is a nearest value
  (`NmeaRescale.NearestToNumber`). Otherwise the ratio of the scales is itself cut:
  10/3 becomes 10/2, where towards zero is 6/2 and the nearest value 7/2
  (`NmeaRescale.TenThirds`).
- The `f` directive multiplies its scale by ten for every fraction digit that fits
  the value, so the scale overflows exactly when ten or more fraction digits are
  kept (`NmeaDecimal.ParsesNumeral`). The shortest such field of its kind is
  `0.0000000001` (`NmeaDecimal.TinyNumber`).
- The `i` directive takes a number from behind its field exactly when the field is
  blank, white space follows it, and `strtol` finds digits there that make a
  difference (`NmeaFields.IntegerKeepsIff`, an instance in
  `NmeaFields.IntegerReadsOn`). No other directive leaves its field
  (`NmeaFields.ParseKeepsToField`), and a scan lines up with the fields exactly
  when it reaches no such `i` (`NmeaFields.ScansByFieldIff`).
- `raw_data =- 511` assigns -511; the comment above it describes a subtraction.
  The two agree exactly outside the readings 403 to 511, and the fan notices only
  with a threshold of zero (`Fan.AssignsInsteadOfSubtracting`).
- The upper four bits of the third and sixth bank have no port. A change there is
  taken for input 4 to 7 of the first bank (`EngineInputs.RightInputIffWired`).
- When several bits of a bank change between two passes, the outputs behind the
  highest one are driven, and all changed bits decide how: they get the bit's own
  state exactly when it went off or every changed bit went on
  (`EngineInputs.OwnStateIff`). If bit 1 goes off while bit 3 goes on, the outputs
  of bit 3 are driven off (`EngineInputs.OnTakenForOff`). A change of bit 7 together
  with others is ignored until it is over (`EngineInputs.AnyEdge`,
  `EngineInputs.IgnoredIff`).
- START_SEQ writes the starter's simulated input off and on again. With the bit on
  before, this drives the starter only if a scan falls into the pause between the
  two writes (`EngineStart.StartCranks`).
- The end of an output's time clears the simulated bit with the output's number, not
  the one of the input that drives it (`EngineInputs.ExpiryClears`).
- The tick stops before port 30, so a timed output from there on never ends
  (`EngineSafety.StrandedStaysOn`); a time delay of zero lasts 2^32 seconds
  (`EngineSafety.ZeroDelayWraps`). An output is off after its delay exactly when
  neither is the case (`EngineSafety.OffAtItsDelay`).
- An insert frees the data that was under its index
  (`thread_io/queue/ollist_threads_rw.c:61`), and every task inserts through the
  pointer that a search gave it, so that pointer leads to freed data afterwards
  (`OutputList.List.Update`, `OutputList.List.Reinsert`). ON_ACC and OFF_ACC then
  test the latch through it (`thread_io/tasks.c:2382-2385`, `2393-2396`), and the
  tick reads an expired record's port number (`thread_io/tasks.c:966-979`).
- `init_ips` loads the parameters and then sets `blower1_on` to 32
  (`thread_io/tasks.c:164-165`), so a controller that restarts hands the STM32
  six temperatures as configured and 32 for blower 1
  (`Config.ControllerRestart`). An STM32 that restarts keeps the thresholds it is
  compiled with until a configuration or SERVER_UP comes
  (`Config.UntilConfigured`); the controller itself sends SERVER_UP only at its own
  start (`thread_io/tasks.c:1551-1598`).
- The host's SERVER_UP command sends the text last printed as temperatures
  (`thread_io/cmd_tasks.c:980-981`). The STM32 agrees with the parameters afterwards
  exactly when the text begins with the bytes of the start-up message
  (`Config.ForwardAgreesIff`); the text printed for this command puts the fan's
  thresholds out of reach (`Config.TextAsThresholds`).
- `change_output`'s comment numbers the second card's ports from 24; the table
  numbers them from 20 (`Relays.FillRealBanks`).
- The string lookups never look at the table's first byte: an empty first string
  is not counted, and a non-empty first string is found exactly when the byte in
  front of the table is a NUL (`StringTable.FindsString`, `StringTable.FindsFirst`).
- `process_digits` tests for numbers below 100 before it tests for numbers below
  10, so a single digit is always shown with a leading zero (`Bcd.ProcessDigits`).
- A frame for the speed display is stored exactly when none of its five bytes is
  0xFF (`Display.StoredIffPlain`), and the serial messages arrive exactly when no
  marker stands in front of them (`SerialLink.RoundTripIffNoMarker`).
- The checksum test stops at the first character that is not printable, and what
  stands behind it, the checksum included, is not looked at: such a sentence passes
  exactly when the test is not strict (`NmeaChecksum.NothingBehind`).
- The checksum does not notice neighbouring characters that change places
  (`NmeaChecksum.SwapUndetected`).

## Model

| member | source | states |
|---|---|---|
| RwLock.InvStep | thread_io/queue/rdwr.c:25-76 | every line of any thread, and every spurious wakeup, keeps: the mutex is owned by the one thread between lock and unlock, both counters equal the number of their holders, readers exclude writers, and no wakeup is lost |
| RwLock.MutualExclusion | thread_io/queue/rdwr.c:25-76 | in every state reached by any number of threads: two holders are both readers, the counters are exact, `writer_writing` is 0 or 1, not both counters are positive, and no unlock fails |
| RwLock.NoLostWakeup | thread_io/queue/rdwr.c:25-76 | in every reachable state: without a writer no reader sleeps unless a broadcast is about to come; a free lock with a sleeper has a thread awake inside a lock call or about to notify |
| RwLock.NoDeadlock | thread_io/queue/rdwr.c:25-76 | as long as one thread has not finished its sections, some thread can run its next line |
| RwLock.MeasureStep | thread_io/queue/rdwr.c:25-76 | every line lowers the lexicographic measure of (lines left, awake threads not yet re-tested); a spurious wakeup raises it by two |
| RwLock.EveryWorkloadCompletes | thread_io/queue/rdwr.c:25-76 | a run is no longer than the measure of its start plus three per spurious wakeup, no line is possible exactly when every thread has finished, and then the lock is free |
| RwLock.EverySectionHeld | thread_io/queue/rdwr.c:25-76 | in a run that finishes, every thread has held exactly the sections of its program, in their order |
| RwLock.SectionsKept | thread_io/queue/rdwr.c:25-76 | along every run: what a thread owes at the start is what it holds in the run, in order, and what it still owes |
| RwLock.WaitsIffConflict | thread_io/queue/rdwr.c:27-57 | in every reachable state the test puts a thread to sleep iff another one holds the lock in a conflicting mode, and otherwise lets it take the lock; readers never wait for readers |
| RwLock.Lock.constructor | thread_io/queue/rdwr.c:16-23 | the initial state: both counters zero, mutex free, each thread in front of its program |
| RwLock.Lock.Step | thread_io/queue/rdwr.c:25-76 | one line of one of the four functions, in place, is one step of the protocol |
| RwLock.Lock.Notify | thread_io/queue/rdwr.c:44-72 | a signal or broadcast wakes exactly the chosen sleepers |
| RwLock.Lock.WakeSpuriously | thread_io/queue/rdwr.c:27-57 | the condition wait may return by itself |
| Ring.StoreKeepsContent | XMEGA/usart_driver.c:140-163 | storing into the free slot at head does not change the queued bytes |
| Ring.AdvanceHead | XMEGA/usart_driver.c:140-163 | advancing head of a ring that is not full appends the stored byte |
| Ring.AdvanceTail | XMEGA/usart_driver.c:255-279 | advancing tail removes the oldest byte |
| UsartTransmit.TransmitsInOrder | XMEGA/usart_driver.c:121-279 | under every interleaving of PutByte's accesses with the interrupt: bytes written to DATA are a prefix of the accepted ones, those are the bytes of the calls that return true in call order, the others are in the ring, the calls are logged with the bytes they were given, a non-empty ring has its interrupt on or about to be turned on, and the other bits of CTRLA never change |
| UsartTransmit.CallsLogged | XMEGA/usart_driver.c:140-163 | along every run the bytes of the finished calls and of the one under way are those the calls were given, in order |
| UsartTransmit.SendsWhatWasGiven | XMEGA/usart_driver.c:140-279 | between calls: what was sent and what waits are the bytes given to the calls that returned true |
| UsartTransmit.RefusedWhenFull | XMEGA/usart_driver.c:121-163 | PutByte refuses a byte exactly when 127 bytes are waiting at its tail access |
| UsartTransmit.Drains | XMEGA/usart_driver.c:255-279 | between calls, one interrupt per waiting byte sends everything accepted and one more turns the interrupt off |
| UsartTransmit.Driver.constructor | XMEGA/usart_driver.c:79-90 | both indices zero, the interrupt level stored |
| UsartTransmit.Driver.Access | XMEGA/usart_driver.c:121-163 | one shared access of PutByte or FreeSpace, in place, is one step of the model |
| UsartTransmit.Driver.DataRegEmpty | XMEGA/usart_driver.c:255-279 | the interrupt sends the oldest byte, or turns itself off when there is none |
| UsartReceive.ReceivesInOrder | XMEGA/usart_driver.c:176-244 | under every interleaving: the bytes GetByte returned are a prefix of the ones the interrupt kept, the others are in the ring, and an arrival is dropped exactly when 127 bytes are waiting |
| UsartReceive.PollDelivers | XMEGA/usart_driver.c:176-210 | with bytes pending, a poll and its four accesses return the oldest one, whatever the interrupt does in between |
| UsartReceive.EmptyPoll | XMEGA/usart_driver.c:176-184 | with none pending a poll returns without reading |
| UsartReceive.Driver.Access | XMEGA/usart_driver.c:176-210 | one shared access of Available or GetByte, in place, is one step of the model |
| UsartReceive.Driver.RxComplete | XMEGA/usart_driver.c:220-244 | the interrupt stores the byte and reports whether it was kept |
| OutputList.ToMapInsert | thread_io/queue/ollist_threads_rw.c:72-83 | a new entry at its place in a sorted list is a map update, at head, middle or tail |
| OutputList.ToMapOverwrite | thread_io/queue/ollist_threads_rw.c:57-66 | new data in an existing entry is a map update |
| OutputList.MapDeterminesList | thread_io/queue/ollist_threads_rw.c:37-85 | two sorted lists with the same map are the same list, so the map says everything about the structure |
| OutputList.List.constructor | thread_io/queue/ollist_threads_rw.c:25-35 | the empty list is the empty map |
| OutputList.List.Insert | thread_io/queue/ollist_threads_rw.c:37-85 | the heap list stays acyclic with strictly increasing indices and data of its own for every node; insert copies the record and is map update, an existing index keeps its node, and exactly the data under the index is freed |
| OutputList.List.Write | thread_io/tasks.c:231-292 | writing a record through the pointer a search gave is map update as well |
| OutputList.List.Update | thread_io/tasks.c:937-966 | search, write and insert under the same index is map update, and leaves the caller with a pointer to freed data |
| OutputList.List.Reinsert | thread_io/tasks.c:2377-2385 | inserting a record as it is changes nothing in the map, and what is read through the pointer afterwards is freed data |
| OutputList.List.Find | thread_io/queue/ollist_threads_rw.c:136-163 | the search with early exit returns 0 and the pointer to exactly the data under the index, or -1 and NULL |
| OutputList.List.FindOp | thread_io/queue/ollist_threads_rw.c:199-224 | the result is the port exactly when some record has this input and this port, and the pointer leads to one of them |
| OutputList.List.ToggleOutput | thread_io/queue/ollist_threads_rw.c:227-257 | flips the state of the record under the index and returns it; without such a record nothing changes |
| ListLock.OnlySearchesOverlap | thread_io/queue/ollist_threads_rw.c:37-257 | in every run of threads that take the lock for their list operations, two operations that hold it at the same time are searches |
| ListLock.SeesOneList | thread_io/queue/ollist_threads_rw.c:37-257 | while an operation holds the lock, a search sees the list unchanged and an insert or toggle is the only one that touches it, so each may be read as one step |
| Bits.Mask2Int | thread_io/tasks.c:214-223 | the loop finds the highest set bit: the bit is set and none above it is |
| Bits.TopBitIsTop | thread_io/tasks.c:214-223 | of a non-empty byte below bit n, the bit counted is below n and set, and every higher one is clear |
| Bits.SetBitReads | thread_io/ioports.c:93-111 | writing one bit reads back and moves no other bit |
| Relays.RealBanksBijective | thread_io/cmd_tasks.c:299-311 | the bank table is a bijection between the 40 ports and the wired bits |
| Relays.FillRealBanks | thread_io/cmd_tasks.c:299-311 | the two loops fill the table with every port's bank and bit |
| Relays.WrittenReads | thread_io/ioports.c:93-216 | one packed write is one map update: no call disturbs another port |
| Relays.PackedRelaysRefineMap | thread_io/tasks.c:587-623 | after any sequence of writes each port's bit is the value last written to it |
| Relays.Card.OutPort | thread_io/ioports.c:93-216 | the shadow byte of the bank gets the bit, and the register of every bank written so far equals its shadow |
| Relays.Card.ChangeOutput | thread_io/tasks.c:587-623 | the call is a map update of the 40 relays, and the card shows the map for every bank written |
| Relays.Card.ToggleOutPortA | thread_io/ioports.c:232-252 | flips one relay of port A; out-of-range numbers mean bit 7 |
| EngineSteps.NextPort | thread_io/tasks.c:231-2656 | one event, seen from one port: edges, simulated inputs and commands keep the port's invariant, its configuration, a shut latch and a running timer's time; a second counts a running timer down; only START_SEQ opens a latch |
| EngineSafety.EmergencyStopLatch | thread_io/tasks.c:282-306 | in every state of every run a fired type-4 record has its relay off in the shadow of a bank the card has, and an event opens the latch and switches the relay on exactly when it serves START_SEQ and the relay is ACCON or FUELPUMP |
| EngineSafety.StaysStopped | thread_io/tasks.c:2616-2656 | however long the run, without START_SEQ a stopped relay stays off |
| EngineSafety.TimedOutputs | thread_io/tasks.c:268-281 | in every reachable state of a timed port below 30 that no command switches: what remains of a running output is at most its period, 1 <= time_left <= time_delay for a positive delay, a type-2 relay is on iff it runs, a type-3 relay is on iff it runs in an even second, and the record's state agrees where no command writes it |
| EngineSafety.TimeLeftMeansRunning | thread_io/tasks.c:935-967 | with a positive delay and a counter that starts at zero: reset is 1 iff 1 <= time_left <= time_delay iff (type 2) the relay is on |
| EngineSafety.CountsDown | thread_io/tasks.c:935-967 | what remains of a running timer falls by exactly one unit a second, whatever other events arrive, also across the wrap of the counter |
| EngineSafety.TriggerRunsForItsDelay | thread_io/tasks.c:935-967 | once triggered, through any events: on (type 2) or alternating from on (type 3) below its period, which is time_delay, or 2^32 for a delay of zero; the last second of the period turns it off |
| EngineSafety.StrandedStaysOn | thread_io/tasks.c:935-967 | a timed output on port 30 or above, once triggered, stays on through every run |
| EngineSafety.ZeroDelayWraps | thread_io/tasks.c:935-967 | with a delay of zero the counter wraps: the output runs through 2^32 - 1 seconds and whatever else happens, and second number 2^32 turns it off |
| EngineSafety.OffAtItsDelay | thread_io/tasks.c:935-967 | a triggered timed output that is no main relay is off with second number time_delay iff its port is below 30 and its delay is not zero |
| EngineInputs.IndexSound | thread_io/tasks.c:137-152 | the index holds only assigned (input, port) pairs, in order and each once |
| EngineInputs.IndexComplete | thread_io/tasks.c:137-152 | the index holds every assigned pair |
| EngineInputs.IndexExact | thread_io/tasks.c:137-152 | a pair is in the index iff the port's record has that input |
| EngineInputs.IndexFits | thread_io/tasks.c:137-152 | the 40 slots are never exceeded, because a port has one input only |
| EngineInputs.InitIps | thread_io/tasks.c:128-162 | the 40 x 40 list searches fill `ip[]` with exactly the index, the other slots stay free, and `max_ips` is its size |
| EngineInputs.InsertData | thread_io/tasks.c:244-292 | search, write and insert under the record's own port on the linked list is the update of the engine's sequence of records, and the pointer leads to freed data afterwards |
| EngineInputs.FindData | thread_io/tasks.c:446-454 | the pointer found for a port leads to the engine's record |
| EngineInputs.SearchResult | thread_io/tasks.c:439-445 | although the loop overwrites the index it compares with, it ends with the changed bit's port, or with the bit number for an unwired bit |
| EngineInputs.RightInputIffWired | thread_io/tasks.c:439-445 | the input driven is the one that changed iff the bit is wired; unwired bits stand for inputs of bank 0 |
| EngineInputs.DriveReachesAssigned | thread_io/tasks.c:446-454 | driving an input gives each output assigned to it one set_output and moves no other output |
| EngineInputs.AnyEdge | thread_io/tasks.c:405-456 | on any reading of a bank: an ignored change leaves everything as it was; otherwise exactly the outputs assigned to the input behind the highest changed bit get one set_output, and the byte is remembered |
| EngineInputs.AnyFakeScan | thread_io/tasks.c:517-562 | the same for any simulated change, and both simulated bytes agree afterwards |
| EngineInputs.RewrittenBits | thread_io/tasks.c:538-547 | the byte a scan writes back has the changed bits on iff all of them went on, and the others as they were |
| EngineInputs.IgnoredIff | thread_io/tasks.c:416-422 | a change is ignored iff there is none, or bit 7 is one of several changed bits |
| EngineInputs.ChangedStateIff | thread_io/tasks.c:427-434 | several changed bits are taken for "on" iff all of them are on |
| EngineInputs.OwnStateIff | thread_io/tasks.c:425-434 | the state given to the outputs behind the highest changed bit is its own iff it went off or every changed bit went on |
| EngineInputs.OnTakenForOff | thread_io/tasks.c:405-456 | an instance: bit 1 off and bit 3 on between two passes drive the outputs behind bit 3 off, and bit 3 is remembered as on |
| EngineInputs.SingleBitEdge | thread_io/tasks.c:405-456 | a single changed bit drives exactly the outputs assigned to its input, with its new state, and the byte is remembered |
| EngineInputs.SingleBitFake | thread_io/tasks.c:498-562 | the same for a simulated bit, and both simulated bytes agree afterwards |
| EngineInputs.SimulatedInput | thread_io/tasks.c:475-562 | change_input followed by a scan sets exactly the outputs assigned to that input |
| EngineInputs.IndexKept | thread_io/tasks.c:128-162 | the index built at start-up is right in every reachable state |
| EngineInputs.ExpiryClears | thread_io/tasks.c:969-982 | after the end of an output's time an input's simulated bit is on iff it was on and its number is not the port's |
| EngineOutputs.Follows | thread_io/tasks.c:238-246 | type 0: the relay is on iff the switch is, inverted by polarity 1, and the record says so |
| EngineOutputs.PressAndRelease | thread_io/tasks.c:247-266 | type 1: a press flips the relay, the release rearms it and moves nothing |
| EngineOutputs.Triggers | thread_io/tasks.c:267-281 | types 2 and 3: an idle output is switched on for its delay, a running one left alone |
| EngineOutputs.StopFires | thread_io/tasks.c:282-306 | type 4: the first call switches off, latches and queues ESTOP_SIGNAL; later ones only take the latch from 1 to 3 |
| EngineOutputs.NothingElse | thread_io/tasks.c:231-313 | other types do nothing, and no call moves another output |
| EngineOutputs.FollowsSwitch | thread_io/tasks.c:405-456 | after a pass that finds its switch alone changed, a follow output shows the switch |
| EngineOutputs.SecondLeavesOthers | thread_io/tasks.c:935-990 | a second leaves every output alone but the running timed ones below port 30 |
| EngineCommands.MainRelaySwitched | thread_io/tasks.c:2377-2423 | ON/OFF_ACC and ON/OFF_FUEL_PUMP switch their relay on or off iff its latch is open, the fuel pump's record with it, and nothing else |
| EngineCommands.StartSwitchesOn | thread_io/tasks.c:2616-2626 | START_SEQ: both relays on, both latches open, no other output moves |
| EngineCommands.ShutdownSwitchesOff | thread_io/tasks.c:2637-2656 | SHUTDOWN: ACCON off, after the pause the fuel pump, latches as they were, no other output moves |
| EngineCommands.InputWritten | thread_io/tasks.c:2358-2581 | each fan, lamp, brake, starter and blinker-test command writes its own simulated input, its lamps' records, and no relay |
| EngineCommands.InputBits | thread_io/tasks.c:2358-2581 | afterwards the commanded input is on or off as commanded and every other one as it was |
| EngineCommands.CommandDrives | thread_io/tasks.c:2358-2581 | such a command and a scan of its settled bank drive exactly the outputs assigned to its own input, on or off, iff the simulated switch was the other way before, and a follow output then shows it |
| EngineCommands.DirectWrites | thread_io/tasks.c:2465-2614 | the direct lamp commands, the wiper commands and SPECIAL_CMD leave the follow outputs they name in the commanded state, SPECIAL_CMD its four off, and no other output moves |
| EngineCommands.SpecialFlashes | thread_io/tasks.c:2506-2515 | in each of its two rounds SPECIAL_CMD switches each of the four lamps on and off twice |
| EngineCommands.BlinkerTest | thread_io/tasks.c:2565-2573 | a blinker test switches its input on, is under way until the next second whatever happens, and that second ends it and switches the input off |
| EngineStart.StartDrives | thread_io/tasks.c:2627-2635 | from a settled bank, with any number of scans between the two writes and one behind them: an output of the starter's input gets set_output(on) if the bit was off, set_output(off) and (on) if it was on and there was a scan, and nothing otherwise |
| EngineStart.StartCranks | thread_io/tasks.c:2627-2635 | such a run triggers an idle timed starter for its full delay iff the bit was off or a scan falls between the writes, and the engine counts as running either way |
| EngineClock.ClockCounts | thread_io/tasks.c:849-872 | over every run: 3600 hours + 60 minutes + seconds is the number of running seconds since the last SHUTDOWN or second of a stopped engine, with minutes and seconds below sixty |
| EngineClock.RunsOn | thread_io/tasks.c:806-857 | while no SHUTDOWN is served, a running engine keeps running and every second counts |
| EngineClock.SecondQueues | thread_io/tasks.c:861-884 | a second queues the messages that switch the lights on iff it is the 15th of a running hour, and those that switch them off iff the countdown of a stopped engine is at 1, as many as fit |
| EngineClock.CountdownRuns | thread_io/tasks.c:870-875 | until the engine is started or shut down again, the countdown loses one a second and stops at zero |
| EngineClock.LightsAfterShutdown | thread_io/tasks.c:2637-2656 | after SHUTDOWN the lights' messages are queued in second number lights_on_delay and in no other one, never with a delay of zero |
| Controller.Controller.constructor | thread_io/tasks.c:115-402 | a controller starts with the inputs as the card reads them, no simulated inputs, an empty message queue, and the given records and index |
| Controller.Controller.ChangeOutput | thread_io/tasks.c:587-623 | switching a relay is a map update of the engine's relays |
| Controller.Controller.AddMsgQueue | thread_io/tasks.c:2225-2236 | a message is pushed, or dropped when 50 are waiting |
| Controller.Controller.ChangeInput | thread_io/tasks.c:475-494 | one bit of the simulated inputs is set or cleared |
| Controller.Controller.SetOutput | thread_io/tasks.c:231-313 | the per-type state machine, in place: follow, toggle, timed, blink, emergency stop |
| Controller.Controller.SearchRealBanks | thread_io/tasks.c:439-445 | the loop is the search that SearchResult is about |
| Controller.Controller.DriveOutputs | thread_io/tasks.c:446-454 | the loop over `ip[]` |
| Controller.Controller.Decode | thread_io/tasks.c:425-445 | input number and new state from mask and result |
| Controller.Controller.MonitorInput | thread_io/tasks.c:405-456 | one pass over one bank of real inputs |
| Controller.Controller.MonitorFakeInput | thread_io/tasks.c:517-562 | one pass over one bank of simulated inputs |
| Controller.Controller.TickOutput | thread_io/tasks.c:935-990 | one second of one output |
| Controller.Controller.Blink | thread_io/tasks.c:950-951 | a blinking output shows the parity of its time |
| Controller.Controller.Expire | thread_io/tasks.c:956-990 | the end of an output's time: relay off, record idle, simulated bit cleared |
| Controller.Controller.ClearSimulated | thread_io/tasks.c:969-982 | an expired output clears the simulated bit with the output's number |
| Controller.Controller.TickClock | thread_io/tasks.c:806-895 | hours, minutes and seconds of running time and the lights' countdown, with the messages they put into the queue |
| Controller.Controller.AdvanceTime | thread_io/tasks.c:849-857 | one second of running time, carried into minutes and hours |
| Controller.Controller.CountDownLights | thread_io/tasks.c:873-894 | the lights go off with the last second of the countdown |
| Controller.Controller.TickBlinkerTests | thread_io/tasks.c:912-931 | a blinker test ends with the next second |
| Controller.Controller.Tick | thread_io/tasks.c:806-996 | one second of the timer task |
| Controller.Controller.SwitchAcc | thread_io/tasks.c:2377-2397 | ON_ACC and OFF_ACC write the relay only while the latch of the record is open |
| Controller.Controller.SwitchFuelPump | thread_io/tasks.c:2399-2423 | ON_FUEL_PUMP and OFF_FUEL_PUMP likewise, with the record |
| Controller.Controller.StartSeq | thread_io/tasks.c:2616-2630 | opens both latches and switches both relays on; the two writes of the starter's input are still to come |
| Controller.Controller.ReleaseStarter | thread_io/tasks.c:2631-2632 | after the first pause the starter's simulated input goes off |
| Controller.Controller.PressStarter | thread_io/tasks.c:2633-2635 | after the second pause it goes on, and the engine counts as running |
| Controller.Controller.Shutdown | thread_io/tasks.c:2637-2643 | ends the running time and switches ACCON off without touching the latch |
| Controller.Controller.StopPump | thread_io/tasks.c:2644-2656 | after the pause the fuel pump goes off and the lights' countdown starts |
| Controller.Controller.RunCommand | thread_io/tasks.c:2345-2656 | the whole switch over commands |
| Controller.Controller.ServeMessage | thread_io/tasks.c:2238-2251 | the message added last is served |
| Controller.Controller.Dispatch | thread_io/tasks.c:2345-2656 | the control task serves a message, or goes on with a START_SEQ or SHUTDOWN that has slept |
| Controller.Controller.Run | thread_io/tasks.c:231-2656 | any sequence of events in place is the run of the state machine, and after any run from the start the card's register bit of a relay whose emergency stop has fired is off |
| NmeaChecksum.Hex2Int | thread_io/minmea.c:19-28 | the value found is below 16 and only printable characters are digits |
| NmeaChecksum.Check | thread_io/minmea.c:45-116 | a sentence is accepted iff it has at most 83 characters, starts with `$`, and the two digits behind the body's `*` spell the XOR of the body; without a `*` iff not strict |
| NmeaChecksum.AcceptedByPlace | thread_io/minmea.c:19-116 | a framed sentence passes, strictly or not, iff its body has at most 77 characters and its check characters are the digits of its XOR by their places in "0123456789ABCDEF" or "0123456789abcdef" |
| NmeaChecksum.DigitByPlace | thread_io/minmea.c:19-28 | a character has the value k iff it is at place k of one of the two digit strings |
| NmeaChecksum.NoOtherDigit | thread_io/minmea.c:19-28 | any other character is no digit |
| NmeaChecksum.XorCancelsPairs | thread_io/minmea.c:66-71 | the checksum of one character is itself, and a character that comes twice in a row does not count |
| NmeaChecksum.NothingBehind | thread_io/minmea.c:65-101 | a sentence with an unprintable character before its `*` passes iff it is short enough and the test is not strict, whatever its checksum says |
| NmeaChecksum.NoChecksum | thread_io/minmea.c:96-101 | a sentence that ends with its body passes iff it is short enough and the test is not strict |
| NmeaChecksum.EmitsLowerCase | thread_io/cmd_tasks.c:1448-1456 | the emitter's digits are those of "0123456789abcdef" |
| NmeaChecksum.Checksum | thread_io/minmea.c:30-43 | the XOR of the characters before the first `*`, without a leading `$` |
| NmeaChecksum.Emit | thread_io/cmd_tasks.c:1448-1456 | the steps that complete a sentence give the framed body with its lower-case checksum |
| NmeaChecksum.FramedAccepted | thread_io/minmea.c:45-116 | a framed body passes iff it is short enough and its check characters spell its XOR |
| NmeaChecksum.EmittedPasses | thread_io/cmd_tasks.c:1448-1456 | what the emitter builds passes, strictly or not, iff the body has at most 77 characters |
| NmeaChecksum.DetectsUnlessSameXor | thread_io/minmea.c:66-108 | a received body with the sent body's checksum passes iff both have the same XOR |
| NmeaChecksum.SubstitutionDetected | thread_io/minmea.c:66-108 | replacing one body character by a different one is always noticed |
| NmeaChecksum.DigitErrorDetected | thread_io/minmea.c:74-108 | replacing one checksum digit is noticed iff its value differs |
| NmeaChecksum.SwapUndetected | thread_io/minmea.c:66-108 | two neighbouring characters that change places are never noticed |
| NmeaChecksum.ChecksumAgrees | thread_io/minmea.c:30-116 | for a printable body before a `*`, acceptance is comparison with the value minmea_checksum computes |
| NmeaChecksum.BaudRequestPasses | thread_io/cmd_tasks.c:1421-1456 | every baud rate request passes the check and fits its 50-byte buffer |
| NmeaDecimal.Scan | thread_io/minmea.c:192-250 | the loop reads what the specification reads, and no variable leaves 32 bits before the scale is reported to overflow |
| NmeaDecimal.ParsesNumeral | thread_io/minmea.c:192-250 | for every `[spaces][sign]digits[.digits]`: rejected iff the integer part overflows, otherwise the value cut after the last digit that fits and the scale ten to the fraction digits kept; the scale overflows iff ten or more are kept |
| NmeaDecimal.TinyNumber | thread_io/minmea.c:192-250 | `0.0...01` with n zeros behind the point overflows the scale iff n >= 9, and is read exactly otherwise |
| NmeaDecimal.KeptIsLongest | thread_io/minmea.c:208-217 | the digits kept are the longest prefix whose number fits 32 bits |
| NmeaDecimal.TruncationError | thread_io/minmea.c:208-217 | cutting digits truncates by less than one unit of the last digit kept |
| NmeaRescale.RoundsToNearest | thread_io/minmea.h:242-252 | to a coarser scale the result exists iff adding the half step fits 32 bits, and is value divided by the integer ratio of the scales, to the nearest with halves away from zero |
| NmeaRescale.NearestIsUnique | thread_io/minmea.h:242-252 | there is only one such value |
| NmeaRescale.TruncatesIff | thread_io/minmea.h:240-252 | the division by the integer ratio rounds towards zero iff the half step does not carry |
| NmeaRescale.RoundsTowardsZeroIff | thread_io/minmea.h:240-252 | for any two scales: the result is the number rounded towards zero iff, to a coarser scale, the result does not exceed the number, or, to a finer one, value times the remainder of the scales is below the old scale |
| NmeaRescale.InsideIffNoCarry | thread_io/minmea.h:240-252 | when the new scale divides the old one, that is: iff the half step does not carry |
| NmeaRescale.ErrorBound | thread_io/minmea.h:242-252 | the result is off the number by at most half a new unit plus what the remainder of the scales adds |
| NmeaRescale.NearestToNumber | thread_io/minmea.h:242-252 | when the new scale divides the old one, the result is at most half a new unit from the number |
| NmeaRescale.TenThirds | thread_io/minmea.h:242-252 | 10/3 in halves gives 10, towards zero would be 6 and the nearest value is 7 |
| NmeaRescale.FinerIsExactIff | thread_io/minmea.h:251-252 | to a finer scale nothing is lost iff the value is zero or the old scale divides the new one |
| NmeaRescale.UpAndBack | thread_io/minmea.h:242-252 | scaling up by any factor multiplies, and scaling back gives the value back, each iff it fits 32 bits |
| NmeaRescale.BlankStaysZero | thread_io/minmea.h:244-245 | a field without a number is read with scale zero and rescales to zero |
| NmeaScan.ScanSentence | thread_io/minmea.c:122-376 | the scanner with its `sentence` and `field` pointers, in terms of directives and the text each is given |
| NmeaScan.NextField | thread_io/minmea.c:130-144 | moves to the character behind the next comma, or sets `field` to NULL for good |
| NmeaScan.ReadField | thread_io/minmea.c:162-365 | the switch over one directive, with its error cases |
| NmeaScan.ReadCharacter | thread_io/minmea.c:160-168 | `c`: NUL iff the field is empty, otherwise the field's first character |
| NmeaScan.ReadDirection | thread_io/minmea.c:170-190 | `d`: 1 iff N or E, -1 iff S or W, 0 iff the field is empty, an error otherwise |
| NmeaScan.ReadText | thread_io/minmea.c:266-276 | `s` copies the field's characters |
| NmeaScan.ReadIdentifier | thread_io/minmea.c:278-293 | `t` needs `$` and five field characters and copies those |
| NmeaScan.SixDigits | thread_io/minmea.c:303-306 | the loop accepts iff six digits follow |
| NmeaScan.ReadDate | thread_io/minmea.c:295-318 | `D`: three two-digit numbers, -1 for an empty field |
| NmeaScan.ReadTime | thread_io/minmea.c:320-358 | `T`: three two-digit numbers and microseconds, -1 for an empty field |
| NmeaScan.ReadMicroseconds | thread_io/minmea.c:341-349 | the first six fraction digits padded with zeros, always below a million |
| NmeaFields.SplitOfJoin | thread_io/minmea.c:118-144 | splitting joined fields gives them back, whatever ends the text |
| NmeaFields.JoinOfSplit | thread_io/minmea.c:118-144 | joining the fields of a text gives the text back, each of them is a field, and what is left ends the text |
| NmeaFields.ParseKeepsToField | thread_io/minmea.c:162-365 | a directive given its text does what it does given the field alone, iff it is not an `i` that reads on |
| NmeaFields.IntegerKeepsIff | thread_io/minmea.c:252-264 | `i` keeps to its field iff it does not read on: the field is not blank, no white space follows it, or no number that makes a difference stands behind that |
| NmeaFields.ScansByFieldIff | thread_io/minmea.c:122-376 | the j-th directive other than `;` is in effect given the j-th comma-separated field, iff the scan reaches no `i` that reads on |
| NmeaFields.ScansByField | thread_io/minmea.c:122-376 | it is for every format without `i`, and for every text whose last field is not one an `i` would read on from |
| NmeaFields.SimpleScan | thread_io/minmea.c:146-369 | a format of `s`, `c`, `_` and `;` succeeds iff the text has at least as many fields as directives before the first `;` |
| NmeaFields.ListRoundTrip | thread_io/minmea.c:266-276 | scanning any list of fields joined by commas for as many strings gives the list back |
| NmeaFields.ParsesInteger | thread_io/minmea.c:252-264 | for every `[spaces][sign]digits` field `i` stores the number, saturated to 32 bits |
| NmeaFields.IntegerReadsOn | thread_io/minmea.c:252-264 | a witness: an `i` on an empty last field takes the number of the next line |
| NmeaValues.DateStored | thread_io/minmea.c:295-318 | `D` on ddmmyy stores day, month and year as these numbers, in this order |
| NmeaValues.TimeStored | thread_io/minmea.c:320-358 | `T` on hhmmss stores hours, minutes and seconds, in this order, and no microseconds |
| NmeaValues.TimeWithFraction | thread_io/minmea.c:320-358 | `T` on hhmmss.frac stores in addition the first six fraction digits, padded with zeros, as microseconds |
| NmeaValues.DateTimeOtherwise | thread_io/minmea.c:295-358 | an empty field stores -1s, one with fewer than six digits in front is an error |
| NmeaValues.TextStored | thread_io/minmea.c:160-276 | on any field: `s` stores it, `c` its first character or NUL, `_` nothing |
| NmeaValues.DirectionStored | thread_io/minmea.c:170-190 | on any field: `d` stores 1, -1, 0 or fails by the first character |
| NmeaValues.IdentifierStored | thread_io/minmea.c:278-293 | on any field: `t` stores the five characters behind a `$`, or fails |
| NmeaValues.MissingField | thread_io/minmea.c:156-365 | what each directive stores for an optional field that is missing; `t` fails |
| NmeaValues.BaudFields | thread_io/cmd_tasks.c:1421-1448 | the fields of every baud rate request are PSRF100, 1, the decimal digits of the chosen rate, 8, 1 and 0 |
| NmeaValues.StoresAll | thread_io/minmea.c:146-369 | a scan that succeeds has stored one value for each directive but `;` and `_`; one that fails no more |
| NmeaValues.FirstDirective | thread_io/minmea.c:146-369 | a directive that fails, or has no field and is not optional, ends the scan; one that stores puts its value in front of the others |
| Fan.Thermostat.Tick | STM32/Src/freertos.c:1494-1545 | one second of the fan control, with the commands it sends |
| Fan.Thermostat.TickAll | STM32/Src/freertos.c:1392-1545 | the timer's callback second after second is a run of the model |
| Fan.AssignsInsteadOfSubtracting | STM32/Src/freertos.c:1494-1534 | the temperature used is the one the comment describes iff the reading is outside 403 to 511; a second of the fan differs iff a stopped fan with the engine on meets the reading 511 and the threshold 0 |
| Fan.BothInOneSecond | STM32/Src/freertos.c:1528-1545 | two commands in one second iff a stopped fan meets a temperature from fan_on_temp to fan_off_temp with engine on and no override; never with the off threshold below the on threshold |
| Fan.Hysteresis | STM32/Src/freertos.c:1528-1545 | with the thresholds in order: hot switches on, cold switches off, and in between nothing changes |
| Fan.CommandsAlternate | STM32/Src/freertos.c:1528-1545 | in every run the commands alternate and the fan is where the last one put it |
| Fan.NoChatter | STM32/Src/freertos.c:1494-1545 | with the thresholds in order, at most one command a second, and k commands need a summed temperature change of at least (k - 1) times the distance of the thresholds |
| SerialLink.Pack64 | STM32/Src/freertos.c:1633-1653 | the shifts give the eight bytes as one number, nothing is shifted out |
| SerialLink.UnpackPacked | STM32/Src/freertos.c:679-701 | taking the bytes out again gives the message back |
| SerialLink.Sender.Send | STM32/Src/freertos.c:677-710 | a marker and 50 bytes go on the line when the server is up, else nothing |
| SerialLink.Receiver.ReceiveBuffer | thread_io/tasks.c:1607-1618 | skips to a marker and takes the 50 bytes behind it |
| SerialLink.LinkDelivers | thread_io/tasks.c:1607-1618 | of any list of messages packed and sent behind junk without a marker, exactly those are received whose frames have arrived in full, in order, whatever the messages contain |
| SerialLink.LinkRoundTrip | STM32/Src/freertos.c:667-720 | once everything has arrived, the whole list has |
| SerialLink.StrayMarker | thread_io/tasks.c:1609-1617 | after any junk that holds a marker, the list received is wrong: it has a buffer more, or its first buffer is not the first message |
| SerialLink.RoundTripIffNoMarker | thread_io/tasks.c:1607-1618 | for every non-empty list of messages, exactly the list arrives iff no marker is in the junk |
| Config.Host.UpdateConfig | thread_io/cmd_tasks.c:805-960 | the message sets every parameter it carries, the buffer carries rates and temperatures, and SEND_CONFIG2 goes on the line with it |
| Config.Host.SendSerialOther | thread_io/tasks.c:339-351 | the command byte and the 50 bytes of the buffer are written in order |
| Config.Host.AnnounceServer | thread_io/tasks.c:1551-1598 | SERVER_UP carries seven temperatures, low byte first |
| Config.Stm32.Dispatch | STM32/Src/freertos.c:756-947 | the receive task's switch over the commands that write a threshold, the fan, the engine or the blower countdown |
| Config.ConfigArrives | STM32/Src/freertos.c:892-947 | every temperature UPDATE_CONFIG packs is the one the STM32 stores under the same name, and the FPGA gets the low bytes of the rates and limits |
| Config.ServerUpArrives | STM32/Src/freertos.c:783-811 | SERVER_UP hands the seven temperatures over iff each fits 16 bits, and leaves the battery box's alone |
| Config.Host.Reload | thread_io/tasks.c:163-165 | a controller that starts has the parameters as saved, but 32 for blower 1 |
| Config.ControllerRestart | thread_io/tasks.c:1551-1598 | a controller that restarts after a configuration leaves six of the seven temperatures as they were and sets blower 1 to 32, which agrees iff 32 was configured |
| Config.Host.ForwardServerUp | thread_io/cmd_tasks.c:980-981 | the host's SERVER_UP goes on the line with the text buffer behind it |
| Config.ForwardAgreesIff | thread_io/cmd_tasks.c:980-981 | whatever the text: the STM32 agrees with the parameters afterwards iff they fit 16 bits and the text begins with the fourteen bytes of the start-up message |
| Config.TextAsThresholds | thread_io/cmd_tasks.c:980-981 | an instance: with the text printed for that very command, the engine limit becomes 28003, the fan's thresholds 14948 and 13856, and blower 1's 8243 |
| Config.UntilConfigured | STM32/Src/freertos.c:128-135 | a restarted STM32 keeps the thresholds it is compiled with through any messages but SERVER_UP and SEND_CONFIG2 |
| Config.SwitchesHold | STM32/Src/freertos.c:766-891 | after any messages the fan, engine and server flags are as the last message says that concerns them |
| Config.ConfigRoundTrip | thread_io/cmd_tasks.c:805-944 | a message that lists seventeen parameters of 16 bits, low byte first, sets exactly these |
| StringTable.Burn | AVR_t6963/eeprom/main_burn.c:75-83 | the loop packs the strings one after the other, each with its NUL, into a zeroed buffer |
| StringTable.FindEnd | AVR_t6963/eeprom/main_burn.c:121-130 | the first loop ends at the count-th NUL behind the table's first byte |
| StringTable.FindStart | AVR_t6963/eeprom/main_burn.c:132-134 | the second loop ends at the NUL before that one |
| StringTable.Lookup | AVR_t6963/eeprom/main_burn.c:115-140 | counting from 0, what stands between those two NULs |
| StringTable.LookupFromOne | AVR_t6963/main.c:564-586 | counting from 1, the same |
| StringTable.EntryIsUnique | AVR_t6963/main.c:564-586 | a lookup has one possible result, so both versions agree up to the offset |
| StringTable.FindsString | AVR_t6963/eeprom/main_burn.c:115-140 | every string behind the first is found exactly, whatever surrounds the table; an empty first string shifts the count by one |
| StringTable.FindsFirst | AVR_t6963/eeprom/main_burn.c:115-140 | a non-empty first string is found exactly when the byte in front of the table is a NUL |
| Bcd.Dec2Bcd | XMEGA/main.c:416-428 | the loop is the sum of the digits shifted in 16 bits |
| Bcd.NibbleIsDigit | XMEGA/main.c:432-435 | nibble k of the recursive converter is decimal digit k, for all numbers |
| Bcd.LoopNibbleIsDigit | XMEGA/main.c:416-428 | nibble k of the loop's result is decimal digit k, for the four digits it keeps |
| Bcd.ConvertersAgree | XMEGA/main.c:416-435 | loop and recursion agree exactly below 10000 |
| Bcd.ProcessDigits | XMEGA/main.c:324-386 | always clears, moves to a column from which the digits fill the four places, sends digits that spell the value modulo 10000, and returns the cursor |
| Display.Speedometer.ReceiveByte | XMEGA/main.c:197-256 | the receive interrupt, in place, is one step of the frame automaton |
| Display.Speedometer.TimerOverflow | XMEGA/main.c:282-306 | new values are shown as digits, a new brightness is sent to both displays, and the flags are cleared |
| Display.FrameDecoded | XMEGA/main.c:197-256 | from any state a marker and five other bytes store both words and the command, and flag what is new |
| Display.LastFrameWins | XMEGA/main.c:197-256 | whatever came before, and whatever but a marker comes after, the values of the last complete frame are held |
| Display.StoredIffPlain | XMEGA/main.c:197-256 | a frame is stored iff none of its five bytes is 0xFF; with a new command, not even the three values arrive otherwise |
| Display.MarkerInFrame | XMEGA/main.c:197-256 | what a first byte 0xFF does: it starts a new frame, and the bytes behind it are taken for other values |

## Left out

- RwLock.MutualExclusion: threads run balanced programs; a client that releases a lock it does not hold gets -1 from `runlock` or `wunlock` only while nobody holds it, and such clients are not part of the model.
- RwLock.Lock.Step: overflow of `readers_reading` and failures of the pthread calls are not modelled.
- UsartTransmit.TransmitsInOrder: the statement about the enabled interrupt supposes a level other than "off", with which the driver never sends.
- Controller.Controller.InsertData: the records are a sequence by port here; `EngineInputs.InsertData` and `EngineInputs.FindData` do the same on the linked list, but the controller object does not hold the list.
- Controller.Controller.AddMsgQueue: the queue is modelled as the stack it is, of at most 50 messages; that the code uses the slots 1 to 50 of its array is not.
- Controller.Controller.TickClock: odometer, trip and uptime, the texts sent to the host and the LCD, and the commands sent on the serial line beside the queued ones.
- Controller.Controller.CountDownLights: the commands sent on the serial line and to the host beside the queued ones.
- Controller.Controller.SwitchAcc: the latch read is the one the record had; that the code inserts the unchanged record first and reads it in freed data is `OutputList.List.Reinsert`.
- EngineInputs.InitIps: the end of `init_ips`, which loads parameters and waypoints; `Config.Host.Reload` models what it makes of the parameters.
- Finer interleavings of the output tasks: `set_output`, one second and one command, up to its pauses, change records through their pointers, outside the list's lock, so each is one atomic step here.
- NmeaChecksum.Check: the messages it prints about rejected sentences.
- NmeaScan.ReadField: `strtol` is modelled with a 32-bit long that saturates; the variable argument list is the sequence of values stored.
- NmeaDecimal.Scan: what C does after `scale *= 10` has overflowed; the model reports the overflow and stops.
- NmeaRescale.UpAndBack: intermediate values that leave 32 bits are reported as an overflow instead of being given a value.
- The sentence parsers built on the scanner, and the conversions to float, coordinates and time.
- Fan.NoChatter: ON_FAN and OFF_FAN messages from outside, and changes of the thresholds during the run.
- The over-temperature alarm, the blower logic that is compiled out, and the sensor protocol of the DS1620.
- SerialLink.Sender.Send: a full RTOS queue, into which `xQueueSend` does not put the word.
- Config.Host.UpdateConfig: the looked-up rev limits and lights delay, the password, and writing the parameter file.
- Config.Stm32.Dispatch: the remaining commands, which pass messages on to displays and tones and set none of the modelled variables, and the division of the incoming stream into messages of 51 bytes.
- StringTable.Lookup: the 30-byte buffer the string is copied to; the strings of the table are shorter.
- Bcd.Dec2Bcd: a shift by 16 bits or more of a 16-bit value, which C leaves undefined for numbers from 10000 on, is taken modulo 2^16.
- Display.Speedometer.TimerOverflow: delays and bytes lost while the data register is not empty.
- List removal and change (`ollist_remove_data`, `ollist_removeall_data`, `ollist_change_data`), which never update the head, and `ollist_change_output`, which returns at once.
- `ollist_find_data_ip`, the search of `OutputList.List.Find` with the record's input as its result instead of 0, called by one client program; printing the list, and reading and writing it as a file.
- `OutPortByteA` to `OutPortByteF` and `TurnOffAllOutputs`, which bypass the shadow bytes.
- Sockets, the host protocol, the LCD, GPIO, termios, memory mapping, threads' creation and priorities, file formats, and the client programs.
