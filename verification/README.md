# Toy robot: allocator, message queue, motors and drivers

A model of the hard parts of the toy robot's code, with proofs:

* the fixed-block allocator (`engine/Allocator.cpp`) and `xmalloc`/`xfree`/`xrealloc` on top of it
  (`engine/xallocator.cpp`), on byte-addressed memory in which the free-list link of a free block
  and the owner pointer of a live block really are the same eight bytes;
* the sentinel ring list (`hal/include/List_comm.h`) with nodes in the heap, and the blocking message
  queue (`hal/include/MessageQueue.h`) as a protocol of any number of threads;
* the table-driven state machine (`engine/StateMachine.*`), the two motors, the motor driver
  (`drivers/engine/engine.c`) and all of them running together;
* the overlapping moves of `hal/include/TypeHelpers.h`, the click decoder of
  `drivers/state_machine/state_machine.c`, and the BMP280 temperature of `drivers/sensor/sensor.c`.

`dafny verify dfyconfig.toml` checks the project.

## Main results

* **Every client program of the allocator.** `Clients.Run` takes any sequence of xmalloc, xfree,
  xrealloc and stores and shows that the pointers end up as on an ideal heap: everything written
  reads back. It has two conditions. No request exceeds 2^63 bytes with its header, which is exactly
  when the size arithmetic yields a block that holds it (`SizeClass.BlockSizeFor`); and the program
  asks for at most fifteen block classes, which is exact (`Clients.FaultsExactly`). Requests of at
  most 32768 bytes with their header meet both (`Clients.SmallDemand`). `Clients.BlocksSafe` spells out what this means
  for live blocks, and `Clients.MemoryUse` with `Clients.PeakIsMost` how much memory is taken: of each
  class exactly as many blocks as were ever live at once.
* **Every interleaving of the queue.** `QueueProtocol.QueueRuns`: first in first out, no lost
  wake-up, no sender asleep after its reply, no made-up status, and removed senders are about to be
  released. The last holds only where a message carries its reply id as its own id:
  `ReleasedExactly` is the exact condition and `MismatchedIdSleeps` a run that shows the gap. The
  status that a remover answers can also be false: `InvalidMeansRemoved` says when it means that
  the message was removed, `MisledSender` is a run where it does not. These conditions cover every
  waiting sender, asleep or not yet. `QueueSpec.RunsAsSpecified` compares every run with a second
  account of it that looks at the actions alone: what is queued and received, which calls have not
  returned, and that each synchronous send returns the status last given to `reply` under its id.
  `MessageQueue.QueueOnRing` runs every interleaving on the linked ring and collects just that.
* **Every list operation** keeps the ring and deletes what it takes out, and `remove` filters it in
  place. Inserting a list's own range ends exactly when the position does not lie behind the range's
  start and up to its end (`InsertOwnRange`, `OwnRangeNeverEnds`).
* **Every event of a state machine.** Each event-data object is deleted exactly once if and only if
  no action raised two events (`StateEngine.DeletedExactlyOnce`); the two engines agree on plain maps
  (`EnginesAgree`); entry and exit actions come in order (`EntryExitDiscipline`).
* **Every run of motors, timers and emergency stops.** `MotorProduct.MotorRuns`. It starts at the
  first SetSpeed, because the driver arms its timers at load (`IdleBlinksAtFirst`).
  `MotorSpec.RunsAsSpecified` gives each motor's speed, timer, period and LEDs from the steps of the
  run alone, and `Robots.RobotRuns` the same for the objects in memory, down to the GPIO pins.
* **Every button and timer sequence** of the click decoder, `Clicks.ClickRuns`.
  `ClickSpec.RunsAsSpecified` gives clicks, states, LEDs and timers from the steps alone, without the
  table: a single click starts a cycle, and its three double clicks light six LEDs, all and none.
  Switching all LEDs off
  does not always leave them off: `StaysDark` is the exact condition, for every table entry that does
  so, and `LateLight` a run that breaks it.
* **Every sensor reading in range** is within 0.01 degree of the datasheet, without 32-bit overflow.
  A negative T3, which the driver reads without its sign, is harmless exactly when `UnsignedT3` says
  so; at the datasheet's own example it is not (`DatasheetExample`).

## Files

| file | content |
|---|---|
| `Basics.dfy` | definitions that several components share |
| `Words.dfy`, `SizeClass.dfy` | 64-bit words and wrapping counters; the bit-smearing loop and block classes |
| `Memory.dfy`, `FixedBlocks.dfy` | byte memory with pointer fragments; the class `Allocator` |
| `XAllocator.dfy`, `Clients.dfy` | registry, xmalloc, xfree, xrealloc; programs that use them |
| `RingList.dfy`, `QueueProtocol.dfy`, `QueueSpec.dfy`, `MessageQueue.dfy` | the list; the threads; what their actions mean; the queue object |
| `StateEngine.dfy`, `StateMachine.dfy` | the engines as functions, with ownership and discipline; the class |
| `Motors.dfy`, `EngineDriver.dfy`, `MotorProduct.dfy`, `MotorSpec.dfy`, `Robot.dfy` | motor machines; the driver; their product; what its steps mean; the objects in memory |
| `Moves.dfy`, `Clicks.dfy`, `ClickSpec.dfy`, `Sensor.dfy` | overlapping moves; click decoder and LEDs; what its steps mean; temperature |

Modelling decisions: memory obtained with `new` never runs out; addresses are unbounded; the library's
`FaultHandler` does not return, so each ASSERT is a proof obligation; the 32-bit counters of `Allocator`
wrap and are tied to unbounded ghost counts modulo 2^32; a `size_t` is 64 bits and wraps. In the queue
each critical section is one step, except that `send` is two steps under the queue mutex, since a reply
takes another mutex and may come between them, in which case it is lost: "after the enqueue" below
means after the write of WOULD_BLOCK at `hal/include/MessageQueue.h:74`; condition variables may wake spuriously; replies never
carry WOULD_BLOCK; and a reply id has at most one synchronous send under way. `MessageId` is
a type parameter, instantiated with enumerations whose signedness the compiler chooses; the model
takes -1 as "no reply wanted", as the comment at `hal/include/MessageQueue.h:57-59` says. In the click driver and the
motor driver every interrupt, timer callback and ioctl is one step. The sensor's calibration words T2 and
T3 are read as the driver reads them, without sign.

## Model

| member | source | states |
|---|---|---|
| SizeClass.NextHigher | engine/xallocator.cpp:84-91 | The smearing loop returns the least power of two >= k for 1 <= k <= 2^63, and 0 for every other 64-bit k |
| SizeClass.SmearStep | engine/xallocator.cpp:88-89 | One turn of the loop doubles the run of ones below the top bit |
| Words.OrBits | engine/xallocator.cpp:89 | The recursive disjunction sets exactly the bits set in either word |
| SizeClass.BlockSizeFor | engine/xallocator.cpp:292-298 | For every 64-bit size: the least class >= size + 8 if that is <= 2^63, and only then it holds the request; above, 0, so that Allocate's assertion fails; within 8 of 2^64, a wrapped size of at most 8 bytes that passes the assertion |
| SizeClass.LeastClassUnique | engine/xallocator.cpp:287-298 | The least class that holds a size is unique, so equal needs get equal block sizes |
| SizeClass.ClassMonotone | engine/xallocator.cpp:287-298 | A larger request never gets a smaller block |
| SizeClass.SmallClasses | engine/xallocator.cpp:46 | The classes from 8 to 32768 bytes are exactly the members of a fifteen-element set |
| FixedBlocks.TimesIsProduct | engine/Allocator.cpp:72 | Slot addresses, added up slot by slot, are pool + index * block size |
| FixedBlocks.SlotsApart | engine/Allocator.cpp:72 | Pool slots lie one after the other without overlap |
| FixedBlocks.NextSlot | engine/Allocator.cpp:71-72 | The next slot was never handed out before and lies inside the pool |
| FixedBlocks.BlocksApart | engine/Allocator.cpp:58-95 | Distinct blocks of one allocator never overlap, in heap and pool mode |
| FixedBlocks.StaticPoolFits | engine/Allocator.h:83-92 | A caller's pool of size x objects bytes holds all blocks if and only if an object is at least a pointer long |
| FixedBlocks.Allocator.constructor | engine/Allocator.cpp:10-37 | Mode, block size and pool of a new allocator, which starts empty and valid |
| FixedBlocks.Allocator.Push | engine/Allocator.cpp:112-117 | The block becomes the head of the free list; only its first word is written |
| FixedBlocks.Allocator.Pop | engine/Allocator.cpp:122-132 | The head of the free list comes off, NULL exactly when the list is empty |
| FixedBlocks.Allocator.Allocate | engine/Allocator.cpp:58-95 | A block not in use, the last one freed if there is one; obtained = in use + free = most ever in use; an exhausted pool with a handler yields NULL and is counted as a miss |
| FixedBlocks.Allocator.Deallocate | engine/Allocator.cpp:102-107 | The block moves from the used set to the head of the free list, and conservation and counters stay right |
| FixedBlocks.Allocator.PopAndDelete | engine/Allocator.cpp:50 | One turn of the destructor loop deletes exactly the head block |
| FixedBlocks.Allocator.Destroy | engine/Allocator.cpp:42-53 | The destructor terminates; in heap mode it frees exactly the free-list blocks, in pool mode exactly its own pool |
| Words.WrapIsMod | engine/Allocator.h:62-80 | The wrapping counters are the true counts modulo 2^32 |
| Words.TallyUp | engine/Allocator.cpp:91-92 | Counting an allocation keeps allocations - deallocations = in use modulo 2^32 |
| Words.TallyDown | engine/Allocator.cpp:105-106 | Counting a deallocation keeps it too |
| XAllocators.XAllocator.Find | engine/xallocator.cpp:183-195 | The registered allocator of that block size, NULL exactly when there is none |
| XAllocators.XAllocator.Insert | engine/xallocator.cpp:199-211 | The allocator is appended to the null-terminated prefix; the fault is unreachable while a slot is free |
| XAllocators.XAllocator.GetAllocator | engine/xallocator.cpp:285-317 | An allocator of the least class for the size, the same one for equal classes; block sizes stay pairwise distinct |
| XAllocators.XAllocator.Stamp | engine/xallocator.cpp:139-150 | The owner is written into the first word, the client pointer is the address behind it, nothing else changes |
| XAllocators.XAllocator.OwnerOf | engine/xallocator.cpp:155-165 | The header of a live block still names the allocator that made it |
| XAllocators.XAllocator.Xmalloc | engine/xallocator.cpp:323-336 | A new live block of the least class; every other live block keeps header and bytes; the books of its class go up by one |
| XAllocators.XAllocator.Xfree | engine/xallocator.cpp:341-358 | The block goes to the front of its owner's free list; NULL does nothing; every other live block is intact; the books go down by one |
| XAllocators.XAllocator.Resize | engine/xallocator.cpp:375-390 | The first min(old usable size, new size) bytes move, the old block returns to its owner, all others are intact |
| XAllocators.XAllocator.Xrealloc | engine/xallocator.cpp:363-394 | NULL exactly for a live pointer and size 0; otherwise as xmalloc or Resize |
| XAllocators.XAllocator.Store | engine/xallocator.cpp:329-335 | A client write inside its own block keeps all free lists, headers and other blocks |
| XAllocators.XAllocator.LiveFacts | engine/xallocator.cpp:139-177 | A live block holds the request, its header names its owner, and it is on no free list |
| XAllocators.LiveApart | engine/xallocator.cpp:323-336 | Two live blocks never overlap |
| Clients.ServedExactly | engine/xallocator.cpp:199-211 | A request finds an allocator or a free slot if and only if at most fifteen classes are in use with its own |
| Clients.SmallDemand | engine/xallocator.cpp:46-47 | A program whose requests all satisfy size + 8 <= 32768 never needs a sixteenth class |
| Clients.FullRegistry | engine/xallocator.cpp:46-47 | With all fifteen small classes registered, a request is served if and only if size + 8 <= 32768 |
| Clients.Run | engine/xallocator.cpp:285-394 | Every program of at most fifteen classes and requests of at most 2^63 bytes with their header leaves its pointers as on an ideal heap and its allocators in balance, and no assertion fails |
| Clients.FaultsExactly | engine/xallocator.cpp:285-317 | The next request finds room if and only if the longer program still asks for at most fifteen classes |
| Clients.PeakIsMost | engine/xallocator.cpp:323-394 | The peak of a class is the largest number of its blocks ever live at once, counting that a resize holds both blocks for a moment |
| Clients.MemoryUse | engine/Allocator.cpp:58-132 | After any program each class has obtained exactly its peak in blocks; what is not live is on the free list; blocksInUse and blockCnt say so modulo 2^32 |
| XAllocators.XAllocator.BalancedUp | engine/Allocator.cpp:86-92 | Lending a block keeps every allocator in agreement with the books |
| XAllocators.XAllocator.BalancedDown | engine/Allocator.cpp:102-107 | So does getting one back |
| Clients.BlocksSafe | engine/xallocator.cpp:139-177 | Blocks of different pointers are disjoint, hold the bytes requested, name their owner and are on no free list |
| RingList.List.constructor | hal/include/List_comm.h:141-143 | A new list is a ring of the sentinel alone |
| RingList.List.Insert | hal/include/List_comm.h:189-197 | The new node stands in front of the iterator; all others keep their order; the ring invariant holds |
| RingList.List.InsertRange | hal/include/List_comm.h:200-203 | Copies of a range of another list are spliced in, in order |
| RingList.List.InsertOwnRange | hal/include/List_comm.h:200-203 | The same for a range of the list itself, if the position is not behind its start and up to its end |
| RingList.List.OwnRangeNeverEnds | hal/include/List_comm.h:200-203 | Otherwise the loop has not reached last after any number of turns |
| RingList.List.Erase | hal/include/List_comm.h:206-213 | Exactly the node at the iterator is unlinked and deleted; the result stands at the next one |
| RingList.List.EraseRange | hal/include/List_comm.h:216-220 | Exactly the range is cut out and its nodes deleted, none is read afterwards, and last is returned |
| RingList.List.Clear | hal/include/List_comm.h:223-234 | Every element node is deleted, none is read afterwards, and the ring is empty |
| RingList.List.Distance | hal/include/List_comm.h:246-260 | Terminates with the number of steps, round the ring if last lies before first |
| RingList.List.Size | hal/include/List_comm.h:162-164 | The number of elements |
| RingList.List.Walk | hal/include/List_comm.h:114-131 | Forward from begin and backward from end meet the same sequence |
| RingList.List.Copy | hal/include/List_comm.h:144-147 | The copy holds the source's sequence in fresh nodes |
| RingList.List.Assign | hal/include/List_comm.h:290-306 | The source's sequence for any two lengths, reusing the first min(lengths) nodes and deleting the surplus; self-assignment included |
| RingList.List.PushFront | hal/include/List_comm.h:185 | The value is in front of the old sequence |
| RingList.List.PushBack | hal/include/List_comm.h:186 | The value is behind the old sequence |
| MessageQueue.Enqueue | hal/include/MessageQueue.h:72 | The message is at the front of the list |
| MessageQueue.Dequeue | hal/include/MessageQueue.h:140-141 | The last message of the list is taken and erased |
| MessageQueue.RemoveAll | hal/include/MessageQueue.h:103-114 | The in-place scan keeps exactly the messages with another id in order, and reports the others in list order; the nodes taken out are deleted |
| MessageQueue.Queue.Take | hal/include/MessageQueue.h:131-141 | Nothing from an empty ring, otherwise its last message |
| MessageQueue.Queue.Do | hal/include/MessageQueue.h:60-154 | Each critical section on the ring and the status array is the protocol step: reply stores its argument, remove goes on only if the ring is not empty, receive takes and remove reports what the protocol says, and send returns the status it finds |
| MessageQueue.QueueOnRing | hal/include/MessageQueue.h:60-154 | Over every interleaving the ring, what the receivers got and what the senders returned are what the actions alone say; sent and not removed = received, then the ring back to front |
| MessageQueue.KeepOrReport | hal/include/MessageQueue.h:104-114 | Kept and reported messages together are the old list, each as often as it occurred |
| QueueProtocol.FifoStep | hal/include/MessageQueue.h:70-77 | Every step keeps: sent and not removed = received, then the list back to front |
| QueueProtocol.AwakeStep | hal/include/MessageQueue.h:130-142 | Every step keeps: while a receiver sleeps, each queued message has a signalled receiver or a sender about to signal |
| QueueProtocol.NoLostWakeup | hal/include/MessageQueue.h:76-77 | A message waits and a receiver sleeps only if another receiver was signalled and will run |
| QueueProtocol.HandshakeStep | hal/include/MessageQueue.h:79-91 | Every step keeps: a sender sleeps only while no reply came since its enqueue |
| QueueProtocol.ReturnedStep | hal/include/MessageQueue.h:81-93 | Every status returned was the latest reply after the enqueue, never WOULD_BLOCK |
| QueueProtocol.OwedStep | hal/include/MessageQueue.h:115-120 | Every step keeps: a sender whose message was removed is answered or about to be, if the message carried its reply id |
| QueueProtocol.QueueRuns | hal/include/MessageQueue.h:60-154 | All of this in every state of every interleaving of any number of threads |
| QueueProtocol.SentIsReceivedThenQueued | hal/include/MessageQueue.h:70-145 | Without remove: sent history = received history, then the list back to front |
| QueueProtocol.RemoveWakes | hal/include/MessageQueue.h:117-120 | A remover's reply reaches a waiting sender, asleep or not, if and only if it waits under the removed id: then it is awake and finds INVALID_OPERATION, otherwise nothing changes for it |
| QueueProtocol.ReleasedExactly | hal/include/MessageQueue.h:102-120 | When remove takes out a waiting sender's message, the sender has its answer afterwards if and only if it sent the message under its reply id or had been answered before |
| QueueProtocol.OnePlace | hal/include/MessageQueue.h:70-145 | Every message sent is exactly one of received, queued and removed |
| QueueProtocol.InvalidMeansRemoved | hal/include/MessageQueue.h:102-120 | Over remove's scan and answer, INVALID_OPERATION means that the sender's message was removed if and only if it had not been received before |
| QueueProtocol.AnswerTrue | hal/include/MessageQueue.h:117-120 | Whatever happened since the scan: the answer is true if and only if the message is neither received nor queued |
| QueueProtocol.MisledSender | hal/include/MessageQueue.h:96-154 | A run in which send returns INVALID_OPERATION for a message that was received |
| QueueProtocol.MismatchedIdSleeps | hal/include/MessageQueue.h:96-120 | A run in which remove takes out a message with another id than its reply id and the sender sleeps on |
| QueueSpec.RunsAsSpecified | hal/include/MessageQueue.h:60-154 | Queue, received messages, calls that have not returned, status words and results of the sends, in every run, as computed from the actions alone |
| QueueSpec.StatusIsLastReply | hal/include/MessageQueue.h:73-92 | The status word is the argument of the last reply under its id, or a remover's INVALID_OPERATION, or WOULD_BLOCK from a send since; the sends returned exactly such values |
| QueueSpec.FallsAsleep | hal/include/MessageQueue.h:81-82 | A test sleeps if and only if the status is WOULD_BLOCK, a receive if and only if the queue is empty |
| QueueSpec.EmptyRemove | hal/include/MessageQueue.h:99-100 | A remove on an empty queue writes no status and moves no thread; otherwise it goes on to scan |
| QueueSpec.AnswersBegun | hal/include/MessageQueue.h:96-120 | Every answer of a remover goes back to a test by the same thread that found the queue not empty |
| StateEngine.ExternalPosts | engine/StateMachine.cpp:21-65 | An ignored event leaves the machine alone; any other is pending with its data or a new NoEventData |
| StateEngine.LastRaiseStays | engine/StateMachine.cpp:56-65 | Of several internal events the last one stays, with its state and data |
| StateEngine.RoundOutcome | engine/StateMachine.cpp:173-210 | Guard of the new state, exit of the old one, entry and action of the new one are applied to the machine's data in this order; a guard that says no leaves the state; the last event raised is pending |
| StateEngine.RoundExAccounted | engine/StateMachine.cpp:153-220 | A round keeps the books: each object is deleted once, pending, or lost to a second internal event |
| StateEngine.RoundsAccounted | engine/StateMachine.cpp:97-137 | The same for any number of rounds of the basic engine |
| StateEngine.ExternalAccounted | engine/StateMachine.cpp:21-65 | An external event keeps the books, ignored or not |
| StateEngine.DeletedExactlyOnce | engine/StateMachine.cpp:21-220 | When ExternalEvent returns nothing is pending, and every object was deleted exactly once if and only if no action raised two events |
| StateEngine.EnginesAgree | engine/StateMachine.cpp:89-221 | Without guard, entry and exit the two engines give the same states, actions and deletions for every behaviour of the actions |
| StateEngine.RestStays | engine/StateMachine.cpp:97 | Once no event is pending further rounds change nothing |
| StateEngine.EntryExitDiscipline | engine/StateMachine.cpp:176-203 | Exit is for the state being left and leads to entry or action of another; entry and exit run on a real change of state, and then always |
| StateMachines.StateMachine.constructor | engine/StateMachine.cpp:8-16 | The initial state, with nothing pending |
| StateMachines.StateMachine.InternalEvent | engine/StateMachine.cpp:56-65 | The event becomes pending; missing data is replaced by a new object |
| StateMachines.StateMachine.Engine | engine/StateMachine.cpp:89-138 | The basic loop is the iterated round |
| StateMachines.StateMachine.EngineEx | engine/StateMachine.cpp:144-221 | The extended loop is the iterated extended round; guard, entry and action check the data type each for itself, if reached |
| StateMachines.StateMachine.ExternalEvent | engine/StateMachine.cpp:21-49 | Ignored events only delete their data; others run to completion on the engine of the machine's map |
| Motors.HandleRests | engine/LeftMotor.cpp:77-139 | Every call ends within two rounds, at rest in Idle, Start or ChangeSpeed, with no assertion failing and no CANNOT_HAPPEN entry met |
| Motors.SetOutcome | engine/RightMotor.cpp:76-131 | SetSpeed starts an idle motor and changes the speed of a moving one |
| Motors.HaltOutcome | engine/RightMotor.cpp:87-112 | Halt is ignored in Idle and otherwise leads through Stop to Idle with speed 0 |
| Motors.StopRound | engine/LeftMotor.cpp:110-119 | Stop halts the motor and raises the event for Idle |
| MotorObjects.CallMotor | engine/StateMachine.h:278-288 | The call on the object in memory has that outcome and leaves it at rest |
| EngineDriver.TimeoutExact | drivers/engine/engine.c:147 | The period is 20 ms for each step of speed below 100 |
| EngineDriver.TimeoutInRange | drivers/engine/engine.c:147-148 | The blink period is within 0..2000 ms if and only if the speed is within 0..100 |
| EngineDriver.Module.constructor | drivers/engine/engine.c:336-342 | Both timers are armed at load |
| EngineDriver.Module.SetLeds | drivers/engine/engine.c:48-96 | The two pins of each LED pair follow together, and no other motor's pin changes |
| EngineDriver.Module.Ioctl | drivers/engine/engine.c:194-246 | Each command changes the speed, timer and pins of its own motor alone |
| EngineDriver.Module.TimerCallback | drivers/engine/engine.c:135-168 | The LED pairs swap, the period follows the speed, no pin of the other motor changes |
| EngineDriver.Module.EmergencyStop | drivers/engine/engine.c:116-132 | Both timers are off and all LEDs dark |
| MotorProduct.OrderedSound | engine/LeftMotor.cpp:98-139 | A motor call, carried out by the driver, keeps the product invariant |
| MotorProduct.TickSound | drivers/engine/engine.c:135-168 | So does a timer callback |
| MotorProduct.StopSound | drivers/engine/engine.c:116-132 | So does the emergency stop |
| MotorProduct.MotorRuns | drivers/engine/engine.c:116-246 | In every run, after the first SetSpeed: the driver's speed is the last commanded; Idle has timer off and LEDs dark; a moving motor's timer is armed exactly when no stop came since Start; never both LED pairs; no data leaks |
| MotorSpec.RunsAsSpecified | drivers/engine/engine.c:116-246 | In every run each motor's speed, blink phase, timer, period and LEDs, its idleness and its machine's speed are what the steps alone say |
| MotorSpec.AfterCallback | drivers/engine/engine.c:135-168 | After a callback exactly one LED pair is lit, the left one if and only if it was the motor's odd callback, and the period is 20 * (100 - speed) |
| MotorSpec.FirstPeriod | drivers/engine/engine.c:203-220 | From a start to the next callback the period is 2000 ms |
| MotorProduct.SidesIndependent | drivers/engine/engine.c:194-246 | Runs of one motor never touch the other's machine or driver half |
| Robots.Robot.Order | engine/LeftMotor.cpp:77-139 | A call on the motor object, with its ioctls, is the step of the product machine |
| Robots.Robot.OneSide | drivers/engine/engine.c:48-246 | A run of one motor changes no GPIO pin, timer or state of the other |
| Robots.RobotRuns | drivers/engine/engine.c:48-246 | Every run of the objects from load ends as the product machine and as the steps alone say; no motor ever has pins of both LED pairs high |
| MotorProduct.IdleBlinksAtFirst | drivers/engine/engine.c:336-342 | Before the first SetSpeed an idle motor can blink |
| MotorProduct.RestartAfterStop | engine/LeftMotor.cpp:77-96 | After an emergency stop SetSpeed alone does not restart a moving motor; Halt and SetSpeed do |
| Moves.ForwardExactly | hal/include/TypeHelpers.h:173-194 | The loop does what memmove would, on raw and live slots as required, if and only if the target is above the source or apart from it |
| Moves.BackwardExactly | hal/include/TypeHelpers.h:196-215 | The same for targets below the source or apart from it |
| Moves.RelocatedLive | hal/include/TypeHelpers.h:173-215 | Afterwards the target holds the source's values in order and nothing else changed; with a destructor exactly the target slots are live |
| Moves.MoveForward | hal/include/TypeHelpers.h:173-194 | Both branches leave the array relocated, for every combination of traits |
| Moves.MoveBackward | hal/include/TypeHelpers.h:196-215 | Both branches leave the array relocated, for every combination of traits |
| Clicks.InvStep | drivers/state_machine/state_machine.c:163-305 | Every press, expiry and LED timer keeps the invariant |
| Clicks.ClickRuns | drivers/state_machine/state_machine.c:202-305 | In every run: presses = singles + 2 doubles + pending, the click timer is pending exactly at count 1, states 2 and 5 are never entered, states 3 and 4 show on the LEDs |
| ClickSpec.RunsAsSpecified | drivers/state_machine/state_machine.c:56-71 | In every run the pending press, the clicks, the state, the LEDs and the timers are what the steps alone say, without the table |
| ClickSpec.ClickStep | drivers/state_machine/state_machine.c:229-305 | What one decoded click does in every phase of a cycle |
| ClickSpec.OneByOne | drivers/state_machine/state_machine.c:163-178 | After a single click in state 0 on a dark strip, exactly the LEDs are lit whose turn-on timers have run out, in any order |
| ClickSpec.ModuleRuns | drivers/state_machine/state_machine.c:163-305 | Every run of the module's handlers ends in that state |
| Clicks.StaysDark | drivers/state_machine/state_machine.c:278-302 | Wherever the table switches all LEDs off, by ALL_OFF or RESET_TIMER, they stay dark until the next click if and only if no turn-on timer was pending |
| Clicks.LateLight | drivers/state_machine/state_machine.c:163-180 | A run that reaches state 6 with a turn-on timer still pending |
| Clicks.Module.ButtonIsr | drivers/state_machine/state_machine.c:213-227 | The interrupt is the press step and keeps the invariant |
| Clicks.Module.ClickTimerCallback | drivers/state_machine/state_machine.c:202-210 | The callback decodes the count and clears it |
| Clicks.Module.StateMachine | drivers/state_machine/state_machine.c:229-305 | One table lookup with its action, loops included, is the step function |
| Clicks.Module.SetBitLed | drivers/state_machine/state_machine.c:116-124 | LED i is lit exactly when bit i of the mask is set |
| Clicks.Module.ClickTimerExpires | drivers/state_machine/state_machine.c:202-210 | An expiry of the click timer is the expiry step and keeps the invariant |
| Clicks.Module.LedOffTimerCallback | drivers/state_machine/state_machine.c:180-187 | The timer darkens its own LED |
| Clicks.Module.LedOnTimerCallback | drivers/state_machine/state_machine.c:163-169 | The timer lights its own LED and keeps the invariant |
| Sensor.NoOverflow | drivers/sensor/sensor.c:64-71 | No intermediate value leaves the signed 32-bit range |
| Sensor.FirstProductFits | drivers/sensor/sensor.c:67 | The product of var1 fits 32 bits for every reading near the calibration point if and only if T2 <= 32768 |
| Sensor.SecondProductFits | drivers/sensor/sensor.c:69 | The product of var2 fits for every such reading if and only if T3 <= 8191 |
| Sensor.WithinOneUnit | drivers/sensor/sensor.c:67-71 | The result is less than one unit from the exact rational formula |
| Sensor.DatasheetScaled | drivers/sensor/sensor.c:67-71 | That formula is the compensation formula of section 3.11.3 of the BMP280 datasheet |
| Sensor.UnsignedVar2 | drivers/sensor/sensor.c:69 | A negative T3 read without sign makes var2 too large by exactly four times the scaled square |
| Sensor.UnsignedT3 | drivers/sensor/sensor.c:53-72 | The result is still that of the signed T3 if and only if this excess does not carry into it |
| Sensor.DatasheetExample | drivers/sensor/sensor.c:255-257 | At the datasheet's example the signed formula gives 25.08 degrees and the driver 29.83, without overflow |
| Sensor.RawValue | drivers/sensor/sensor.c:60-64 | The shifted and joined register bytes spell a 20-bit number |
| Sensor.RegistersAccurate | drivers/sensor/sensor.c:53-72 | From the three register bytes: no overflow, and within 0.01 degree of the datasheet |
| Sensor.Accurate | drivers/sensor/sensor.c:67-71 | Every reading in range is within 0.01 degree of the datasheet |

## Left out

- Threads and the lock of the allocator: it is a no-op outside Windows.
- `new` running out of memory, and so the branch of xrealloc where xmalloc returns NULL.
- The STATIC_POOLS and EXTERNAL_EVENT_NO_HEAP_DATA builds, which are switched off. The guard at engine/StateMachine.cpp:25 spells the latter EXETERNAL, so that build would delete ignored data it does not own.
- xalloc_init, xalloc_destroy, xalloc_stats and the names of allocators.
- FixedBlocks.Allocator.constructor: a caller's pool must be for objects of at least eight bytes, because the source overruns shorter ones (FixedBlocks.StaticPoolFits is the exact condition).
- FixedBlocks.Allocator.Destroy: blocks still in use are not followed; the source leaks them in heap mode.
- Liveness and fairness of the queue: that a signalled thread runs eventually. The queue destructor and its name are left out too.
- XAllocators.XAllocator.GetAllocator: no requests above 2^63 bytes with the header. Most of them fail Allocate's assertion; those within 8 bytes of 2^64 wrap, can register a second allocator with eight-byte blocks, and get a block too short for them (SizeClass.BlockSizeFor is the exact condition).
- XAllocators.XAllocator.Xmalloc: no such requests either.
- XAllocators.XAllocator.Resize: no such requests either.
- XAllocators.XAllocator.Xrealloc: no such requests either.
- Clients.Run: no such requests either.
- RingList.List.InsertRange: the range is of another list; RingList.List.InsertOwnRange covers a range of the same one.
- QueueProtocol.QueueRuns: does not cover a remove whose id, or a send whose reply id, is outside the reply range while replies are enabled, because the source then indexes its reply arrays out of bounds; nor replies that carry WOULD_BLOCK or two synchronous sends under one reply id, because the status word then belongs to two waiters.
- Several threads inside one StateMachine, and guard, entry or exit actions that raise events: the source asserts against the latter for entry and exit.
- PARENT_TRANSITION and SetSpeed with a NULL pointer, which fails the type check of Start.
- MotorProduct.MotorRuns: covers speeds 1..100 as the user interface sends them; EngineDriver.TimeoutInRange says what happens outside.
- The second writer to the motor driver in ui/input.c, and the race inside hrtimer_try_to_cancel.
- Jiffies and the order in which pending timers expire: any order is allowed.
- Table entries that no run uses: SW_OFF is never fed, and states 2 and 5 are never entered.
- GPIO requests, I2C, sysfs, character devices, module registration, drivers/simple_io.
- Vector.h and VectorImpl.h: their implementation is not part of this model. The other helpers of TypeHelpers.h would only add easy members.
- Sensor.Accurate: covers readings with |(raw >> 3) - 2 T1| <= 65535, T2 <= 32767 and T3 <= 8191. The driver reads calibration words without sign; Sensor.UnsignedT3 and Sensor.DatasheetExample say what becomes of a negative T3, Sensor.FirstProductFits and Sensor.SecondProductFits where products overflow.
- Process, signal and shared-memory setup, the web server, the camera HAL and the web front and back ends.
