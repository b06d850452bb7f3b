# Elevator kernel module — a Dafny model

This project models the core of an elevator-simulation Linux kernel module
and of a small timer module, and proves properties of the model.

The elevator module keeps one car and six floors:

- The car has a state (OFFLINE, IDLE, LOADING, UP, DOWN), a current floor, a current load in pounds, an ordered onboard list, a passenger count, a serviced counter and a running flag.
- Each floor has a FIFO waiting queue and a cached waiting count.
- Passengers come in four ranked classes: Freshman, Sophomore, Junior and Senior, weighing 100, 150, 200 and 250 lbs.
- The car carries at most 5 riders and 750 lbs.

A kernel thread runs the control loop. In IDLE it decides by a fixed priority cascade. LOADING unloads the riders bound for the current floor, then boards FIFO from the floor's queue until the first passenger that does not fit. UP and DOWN move one floor.

Callers reach the module in three ways:

- the `start_elevator`, `stop_elevator` and `issue_request` system calls;
- writes to a proc file (`start`, `stop`, or `<letter> <from> <to>`);
- reads of the proc file, which return a status report.

The timer module reports the wall-clock time on every read of its proc file. From the second read on, it also reports the time elapsed since the previous read, computed by timespec subtraction with a nanosecond borrow.

The model is functional:

- `World` is an immutable record of the car and the floors. Queues and the onboard list are sequences.
- Every tick of the control loop (`Dispatch.Tick`) and every gateway call (`Gateway.*`) is one atomic, pure step. Requests arriving while the car travels are modelled by interleaving gateway steps between ticks (`Simulation.Run`).
- `Interleaving` refines a tick into the two critical sections around the travel and dwell delays, as the source really runs it.
- Clocks, the user-space copy and integer parsing become parameters.

Files:

- `passengers.dfy`: classes, weights, letters and codes.
- `building.dfy`: state, invariant `Valid`, passenger multiset.
- `dispatch.dfy`: IDLE cascade, unload filter, FIFO boarding and `Tick`.
- `dispatch_properties.dfy`: tick lemmas.
- `gateway.dfy`: start, stop, admission and command decoding.
- `gateway_properties.dfy`: gateway lemmas.
- `report.dfy`: the status report.
- `simulation.dfy`: runs of interleaved steps.
- `interleaving.dfy`: the lock released during delays.
- `scenarios.dfy`: concrete runs.
- `timer.dfy`: the timer module.
- `wrappers.dfy`: `Option`.

Points where the code's behaviour is easy to misread:

- The `issue_request` system call returns 1 for any failure, not `-EINVAL` or `-ENOMEM` (part3/src/elevator.c:475-489).
- The IDLE floor scans test the cached waiting counts, not the queues. Under the invariant these agree.
- `stop_elevator` and `start_elevator` can run while the loop sleeps in UP, DOWN or LOADING. The mutex is released around `msleep` (part3/src/elevator.c:321-323, 332-334, 346-348), and the loop then overwrites the state without looking at it (see Findings).

## Model

| member | source | states |
|---|---|---|
| Passengers.TypeOfCode | part3/src/elevator.c:166-172 | exactly the codes 0..3 name a class, and the class's code is the code given; any other code is rejected |
| Passengers.CodeOfLetter | part3/src/elevator.c:459-465 | exactly f/F, o/O, j/J, s/S are accepted; each decodes to the code of the class whose enum letter is its upper-case form |
| Passengers.LetterRoundTrip | part3/src/elevator.c:459-465 | the letter of every class, upper or lower case, decodes back to that class's code, and that code maps back to the class |
| Passengers.LetterInjective | part3/src/elevator.c:41-46 | distinct classes have distinct letters |
| Passengers.Weight | part3/src/elevator.c:92-100 | each class weighs 100 lbs plus 50 per rank above Freshman (100, 150, 200, 250), so every weight lies in 100..250 |
| Building.Initial | part3/src/elevator.c:519-532 | the load-time state is OFFLINE and not running at floor 1, with no riders, zero load, count and serviced counter, every floor with an empty queue and a zero count; it satisfies the invariant |
| Dispatch.HasDestinationAt | part3/src/elevator.c:211-216 | the early-exit scan is true exactly when some rider's destination is the floor |
| Dispatch.HeadingOf | part3/src/elevator.c:240-248 | the direction is that of the first rider whose destination differs from the floor (first found, not majority); Level exactly when every rider is bound for the floor |
| Dispatch.WaitingFrom | part3/src/elevator.c:253-258 | the upward scan is true exactly when some floor from `lo` to the top has a positive waiting count |
| Dispatch.WaitingDownFrom | part3/src/elevator.c:262-267 | the downward scan is true exactly when some floor from `hi` down to 1 has a positive waiting count |
| Dispatch.IdleDecision | part3/src/elevator.c:205-276 | first match wins: LOADING iff a rider is bound here or the front waiter fits; else UP/DOWN per the first rider bound elsewhere; else UP iff someone waits above; else DOWN iff someone waits below; else IDLE — each outcome as an iff over quantified conditions |
| Dispatch.Staying | part3/src/elevator.c:283-293 | the riders kept are bound elsewhere, and every rider bound elsewhere is kept |
| Dispatch.Leaving | part3/src/elevator.c:283-293 | the riders removed are bound for the floor, and every rider bound for the floor is removed |
| Dispatch.SplitAtFloor | part3/src/elevator.c:283-293 | unloading partitions the riders: the multiset and the count split exactly between those staying and those leaving |
| Dispatch.SplitWeightAtFloor | part3/src/elevator.c:285-287 | the load drops by exactly the weight of the riders who leave |
| Dispatch.StayingAppend | part3/src/elevator.c:283-286 | unloading is a filter that distributes over concatenation, so the riders who stay keep their relative order |
| Dispatch.StayingWhenNoneLeave | part3/src/elevator.c:283-293 | with nobody bound for the floor, unloading changes nothing |
| Dispatch.Board | part3/src/elevator.c:296-318 | boarding moves a prefix of the queue to the tail of the onboard list; load and count grow by that prefix's weight and length; it stops only when the car is full, the queue is empty, or the front passenger would exceed 750; limits are kept |
| Dispatch.LoadingTick | part3/src/elevator.c:279-327 | LOADING ends in IDLE at the same floor and touches no other floor |
| Dispatch.Tick | part3/src/elevator.c:195-361 | a tick keeps the floor in 1..6 and never changes the running flag; a result in OFFLINE means nothing changed; a running LOADING/UP/DOWN car always ends in IDLE, and LOADING/UP/DOWN are entered only from IDLE; the floor moves at most one and only from a running UP/DOWN car |
| DispatchProperties.TickWhenStopped | part3/src/elevator.c:198-202 | a stopped or offline car is left exactly as it is |
| DispatchProperties.TickIdle | part3/src/elevator.c:205-276 | IDLE only picks the next state; floor, riders, load, count and queues are unchanged |
| DispatchProperties.TickMove | part3/src/elevator.c:330-356 | UP adds exactly one below the top floor and DOWN subtracts exactly one above floor 1; at a boundary the floor is unchanged; both end in IDLE |
| DispatchProperties.LoadingTickShape | part3/src/elevator.c:279-327 | LOADING removes exactly the riders bound for this floor, keeping the others in order, then moves the first k of the floor's queue to the tail of the onboard list; the waiting count drops by k; load and count move by the riders' weights and numbers; serviced grows by the number unloaded; boarding stopped only at a full car, an empty queue or the first misfit; nothing else changes and the car is IDLE |
| DispatchProperties.LoadingTickBounds | part3/src/elevator.c:283-318 | after LOADING the load equals the riders' total weight and is at most 750, and the count equals the riders and is at most 5 |
| DispatchProperties.LoadingLeavesNobodyBoundHere | part3/src/elevator.c:283-318 | after LOADING nobody aboard is bound for the current floor |
| DispatchProperties.LoadingPreservesValid | part3/src/elevator.c:279-327 | the LOADING tick keeps the whole invariant |
| DispatchProperties.TickPreservesValid | part3/src/elevator.c:204-361 | every tick keeps the invariant: load = sum of weights ≤ 750, count = riders ≤ 5, waiting count = queue length, floor in 1..6, OFFLINE iff not running |
| DispatchProperties.LoadingConserves | part3/src/elevator.c:283-318 | LOADING loses and duplicates nobody: the building's passengers before equal those after plus the riders who left |
| DispatchProperties.TickConservesPassengers | part3/src/elevator.c:204-361 | any tick conserves passengers up to those served, who were all bound for the current floor, and the serviced counter grows by exactly their number |
| Gateway.StartElevator | part3/src/elevator.c:111-125 | refused with 1 and no change unless OFFLINE; otherwise running, IDLE, floor 1, count 0, with serviced counter, load, riders and queues untouched |
| Gateway.StopElevator | part3/src/elevator.c:136-150 | 0 with no change when OFFLINE; 1 with no change while the count is positive; otherwise 0, OFFLINE and not running, with floor, count, riders, load, serviced counter and queues unchanged |
| Gateway.AddPassenger | part3/src/elevator.c:156-188 | -EINVAL iff a floor is out of 1..6, the floors are equal, or the code is outside 0..3; -ENOMEM on allocation failure; any failure leaves the state unchanged; success appends the passenger at the tail of its start floor's queue, bumps that count by one, and changes nothing else |
| Gateway.IssueRequest | part3/src/elevator.c:475-489 | 0 iff the request is valid and admitted, with the admission's effect; otherwise 1 and no change |
| Gateway.PrefixMatches | part3/src/elevator.c:447-449 | the character-by-character comparison holds exactly when the buffer starts with the word |
| Gateway.Classify | part3/src/elevator.c:447-451 | "start" prefix selects start; otherwise a "stop" prefix selects stop; anything else is a request |
| Gateway.WriteBuffer | part3/src/elevator.c:439-445 | exactly min(count, 127) bytes are taken, as a prefix of the input; a short input is taken whole |
| Gateway.ElevatorWrite | part3/src/elevator.c:437-473 | a "start" prefix dispatches to start and a "stop" prefix to stop; an empty, unparsable or unknown-letter request is -EINVAL with no change; otherwise the decoded request is admitted; in every dispatched case the state is the call's, and the result is the call's nonzero code, or the byte count on success |
| GatewayProperties.StartPreservesValid | part3/src/elevator.c:116-121 | start keeps the invariant |
| GatewayProperties.StartResetIsHarmless | part3/src/elevator.c:117-121 | on a consistent offline car the load and riders start does not reset are already 0 and empty, and the count it zeroes was already 0 |
| GatewayProperties.StopPreservesValid | part3/src/elevator.c:136-150 | stop keeps the invariant |
| GatewayProperties.StopLeavesCarEmpty | part3/src/elevator.c:141-145 | stop takes effect only with an empty car, and refuses exactly while a running car has riders |
| GatewayProperties.StopIdempotent | part3/src/elevator.c:136-139 | after a successful stop, stopping again succeeds with no change |
| GatewayProperties.StartStopRoundTrip | part3/src/elevator.c:111-150 | start then stop from a consistent offline state succeeds twice and restores the state except that the car is at floor 1 |
| GatewayProperties.AddPassengerPreservesValid | part3/src/elevator.c:160-188 | admission keeps the invariant |
| GatewayProperties.AddPassengerConserves | part3/src/elevator.c:182-185 | a successful admission adds exactly the requested passenger to the building; a failed one adds nobody |
| GatewayProperties.WriteRequestRoundTrip | part3/src/elevator.c:456-467 | writing "<letter> <from> <to>" in either case queues a passenger of that letter's class, exactly as the system call would, and returns the byte count |
| GatewayProperties.WriteRejectsUnknownLetter | part3/src/elevator.c:459-465 | any other first character is -EINVAL with no change |
| Report.StateNameInjective | part3/src/elevator.c:81-90 | the printed state name identifies the state |
| Report.TagIdentifiesClass | part3/src/elevator.c:401 | a `<letter><dest>` token identifies the passenger's class and destination |
| Report.Tags | part3/src/elevator.c:400-402 | one token per passenger, in list order |
| Report.FloorLines | part3/src/elevator.c:406-418 | floors listed from n down to 1; a line is marked exactly at the car's floor and carries that floor's count and queue tokens |
| Report.ElevatorRead | part3/src/elevator.c:379-380 | a read at a positive offset reports nothing, and one at offset 0 reports the snapshot |
| Report.Snapshot | part3/src/elevator.c:386-428 | the report built under one lock: state name, floor, load, one token per rider in order, lines for floors 6 down to 1 each with its marker, waiting count and the tokens of its queue front first, the waiting total as the sum of the floors' waiting counts, the passenger count and the serviced counter |
| Report.TotalWaitingCountsQueues | part3/src/elevator.c:417 | with consistent counts, the summed waiting counts equal the number of waiting passengers |
| Report.SnapshotIsTruthful | part3/src/elevator.c:386-428 | on a consistent state the report lists floors 6..1, marks only the car's floor, and has each line's count equal to its number of tokens; the rider and waiting totals count the riders and the waiting passengers, and the load is the riders' weight |
| Simulation.ApplyPreservesValid | part3/src/elevator.c:103-361 | every tick or gateway call keeps the invariant |
| Simulation.ApplyAccounts | part3/src/elevator.c:156-361 | every step grows "passengers in the building + serviced" by one exactly for an admitted request; the serviced counter never decreases |
| Simulation.RunPreservesValid | part3/src/elevator.c:103-361 | any interleaving of ticks and gateway calls keeps the invariant |
| Simulation.RunAccounts | part3/src/elevator.c:156-361 | over any run, passengers in the building plus serviced grow by exactly the number admitted, so none is lost or duplicated |
| Simulation.Reachable | part3/src/elevator.c:519-532 | every state reachable from module load is consistent, and its passengers plus serviced equal the admitted requests |
| Scenarios.SeniorFromTwoToFive | part3/src/elevator.c:204-361 | from module load, a Senior requested from 2 to 5 and then start: after 4 ticks the car is IDLE at floor 2 carrying 250; after 8 more it is at floor 5, empty, with one passenger serviced |
| Scenarios.FifoBoarding | part3/src/elevator.c:296-318 | (F,1,3) then (S,1,2) both board, in request order, for 350 lbs |
| Scenarios.FullLoadBoardsNobody | part3/src/elevator.c:307-310 | with 750 lbs aboard nobody boards, however few riders there are |
| Scenarios.MisfitBlocksQueue | part3/src/elevator.c:307-310 | a misfitting Senior at the front blocks a Freshman behind it who alone would fit |
| Interleaving.Begin | part3/src/elevator.c:279-356 | the part before the delay: a pending move changes nothing, and a step with no delay is the atomic tick |
| Interleaving.ResumeAsWritten | part3/src/elevator.c:320-354 | after the delay the source sets IDLE whatever happened meanwhile |
| Interleaving.Resume | part3/src/elevator.c:320-354 | the corrected resume finishes only if the state is still the one the first half left; otherwise the gateway's change stands |
| Interleaving.UninterruptedTickIsAtomic | part3/src/elevator.c:279-356 | with no call in between, both halves, as written and corrected, equal the atomic tick |
| Interleaving.StepPreservesOk | part3/src/elevator.c:103-361 | in the corrected system every event keeps the invariant, under any interleaving of calls with the halves of a tick |
| Interleaving.CorrectedReachable | part3/src/elevator.c:519-532 | every state the corrected system reaches from load is consistent |
| Interleaving.StopDuringTravelAsWritten | part3/src/elevator.c:330-341 | as written, a stop during the travel delay leaves the car IDLE but not running; start then refuses and ticks do nothing |
| Interleaving.StopStartDuringDescentAsWritten | part3/src/elevator.c:344-350 | as written, stop and start during a descent from floor 2 leave the car at floor 0 |
| Interleaving.StopDuringDwellAsWritten | part3/src/elevator.c:320-326 | as written, a stop during the dwell after the last rider left leaves the car IDLE but not running |
| Interleaving.CorrectedHandlesTheSameInterleavings | part3/src/elevator.c:320-354 | the corrected resume leaves consistent states on the same interleavings |
| Timer.Elapsed | part2/src/my_timer.c:41-49 | for normalised inputs the difference is normalised, and its total nanoseconds are always the difference of the totals |
| Timer.ElapsedBorrow | part2/src/my_timer.c:44-49 | one second is borrowed exactly when the nanoseconds would be negative, and 10^9 is added to them; otherwise the difference is component-wise |
| Timer.ElapsedIsTheNormalisedDifference | part2/src/my_timer.c:41-49 | for normalised inputs the result is the unique normalised timestamp whose value is the difference |
| Timer.TimerInit | part2/src/my_timer.c:86-88 | at load `last_time` is the current time and the first-read flag is set, so the next read at offset 0 reports the current time alone |
| Timer.TimerRead | part2/src/my_timer.c:22-69 | a positive offset reports nothing and changes nothing; an offset-0 read records the current time and clears the first-read flag; it reports only the current time iff it was the first read, and otherwise also the elapsed time since the last read, as the borrow-normalised `Elapsed` difference, whose total nanoseconds are the difference of the two instants |
| Timer.OnlyFirstReadIsBare | part2/src/my_timer.c:30-63 | in any sequence of reads, read i reports the current time alone exactly when it is the first at offset 0 (from a fresh state), and reports nothing exactly at a positive offset |
| Timer.AfterReads | part2/src/my_timer.c:62-66 | after any reads, `last_time` is the time of the last offset-0 read and the flag is cleared; with no such read nothing changed |

## Findings

| source | as written | input that shows it | evidently intended | confidence | as-written member | corrected member |
|---|---|---|---|---|---|---|
| part3/src/elevator.c:330-356 | UP/DOWN release the lock for the 2 s travel delay, then unconditionally change the floor by one and set IDLE | an empty car moving; `stop` during the delay, or `stop` then `start` during a descent from floor 2 | a gateway call made during the delay is not overwritten: the pending move is dropped when the state is no longer UP/DOWN, so the floor stays in 1..6 and OFFLINE still means not running | high (not executed) | Interleaving.StopStartDuringDescentAsWritten | Interleaving.StepPreservesOk |
| part3/src/elevator.c:320-326 | LOADING releases the lock for the 1 s dwell, then unconditionally sets IDLE | the last rider gets off; `stop` during the dwell | a stop made during the dwell is not overwritten: the pending return to IDLE is dropped, so OFFLINE still means not running | high (not executed) | Interleaving.StopDuringDwellAsWritten | Interleaving.Resume |

The consequences of these interleavings:

- A car left IDLE but not running never moves, and `start` refuses it as already active. Only another `stop` clears this state (`Interleaving.StopDuringTravelAsWritten`).
- A car left at floor 0 makes the next IDLE tick read `floors[-1]`.

With nothing in between, both versions agree with the atomic tick (`Interleaving.UninterruptedTickIsAtomic`). The rest of the model therefore uses the atomic `Dispatch.Tick`.

## Left out

- Kernel-module scaffolding has no logic of its own:
  - `elevator_init`/`elevator_exit` and `timer_init`/`timer_exit`, except the initial values, which `Building.Initial` and `Timer.TimerInit` model;
  - proc entry creation and removal, `proc_ops` wiring;
  - syscall stub assignment.
- The mutex, `kthread_run`/`kthread_should_stop`, `wake_up_process` and `msleep`: each critical section is one atomic step. `Interleaving` splits a tick at the delays.
- `kmalloc`/`kfree`:
  - an allocation failure in `add_passenger` is the `allocFails` parameter (-ENOMEM, no change);
  - the `!elevator` checks in start/stop are left out, because the car always exists in the model;
  - the report buffer's allocation failure is left out.
- `copy_from_user` (-EFAULT) is left out.
- `sscanf` integer parsing is left out: the two floor numbers are a parameter of `Gateway.ElevatorWrite`, and the class letter is the first byte of the buffer.
- The report's `scnprintf` byte layout, its 4096-byte truncation and `simple_read_from_buffer` are left out: the report is modelled as fields and tokens.
- `ktime_get_real_ts64` and the timer's `snprintf` output are left out: timestamps are parameters.
- Integer widths: the C `int` counters (`waiting_count`, `total_serviced`, `passenger_count`) and the 64-bit `tv_sec` are unbounded integers. Their overflow after 2^31 requests, or at extreme times, is not modelled.
- The `default:` case of the control-loop switch is not modelled. OFFLINE is filtered out before the switch, so that case cannot be reached.
- Timer.Elapsed: the total-nanoseconds identity holds for all inputs; only the normalised-result promise needs normalised timestamps.
- `part1/part1.c` only calls process-id and I/O primitives, so it is not part of this model.
