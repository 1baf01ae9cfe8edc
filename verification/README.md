# Verified model of the Akita engine and the MGPUSim driver

This project models the parts of the Akita simulation framework (`akita/`) and of the MGPUSim
GPU simulator (`mgpusim-V1/`) whose correctness depends on many steps happening in the right
order, and proves what they are for. Pure specifications are state machines over values:
a `Run` is a sequence of states in which each follows from the one before by an enabled action,
and the main results hold for every run, hence for every order in which handlers, workers, ports
and the network act. Code that changes things in place is modelled a second time as classes and
methods with the source's fields and loops, each proved equal to a step of the state machine.

## The parts

- **Message transport** (`Transport`, `TransportTick`, `TransportRuns`, `TransportTurns`,
  `TransportWakeUps`, `Connection`, `Freq`): a `DirectConnection` with its ports, the owners' tick
  schedulers, buffered senders and the engine's queues. Components may send, retrieve, schedule
  events and ask for ticks in any order, in the handlers of primary and of secondary events; the
  connection ticks in secondary events. The invariant ties the two busy flags to full buffers and
  the ticks that are suppressed to ticks that are queued or were handled. From it follows who is
  woken and who is not, that every port comes first in its turn, in exactly which step a wake-up
  is lost, and that none is lost if ports are used in primary events only and, once the
  connection has ticked at a time, only handlers of primary events schedule primary events for
  that time.
- **Event engines** (`EventQueue`, `EngineOrder`, `SerialEngine`, `ParallelEngine`,
  `ParallelDispatch`): the array heap and the insertion list as queues, the serial engine, and the
  parallel engine with its dispatch loop interleaved with workers in all possible ways. Both
  engines meet one specification of the order of events, under one and the same condition.
- **Page migration** (`PageMigration`, `MigrationRuns`, `MigrationDriver`): the driver's protocol
  of five acknowledgement counters against a network that answers each request once, in any
  order. The model covers every request the MMU may make, also those that leave a phase without
  requests: for these the driver waits forever, and that is exactly when it does.
- **Command queues** (`CommandQueue`, `CommandProgress`, `CommandQueueDriver`): in-order queues
  whose outstanding requests wait, are sent, travel and return, for how many ticks a copy waits,
  when a command leaves its queue, and exactly which copies are never done.
- **Work partitioning** (`MixedRadix`, `WorkGroups`, `GridBuilder`, `Wavefronts`, `Distributor`):
  splitting a grid over GPUs, building work-groups, cutting them into wavefronts, decoding lanes
  back into positions, and spreading pages.
- **Pipeline** (`Pipeline`, `PipelineRuns`, `PipelineImpl`): the grid of stage slots, its
  potential function and its latency.
- **Paged copies** (`PagedCopy`), **sweep line** (`SweepLine`), **busy time** (`BusyTime`).

## What the code does and its documentation does not say

- A migration request without a GPU, an accessing GPU or a page makes the driver wait forever:
  `MigrationRuns.AnsweredIffGood` says so of every run, `MigrationRuns.JobRun` has a run for every
  such request, and `MigrationRuns.NobodyAccesses` is one for a single page.
- The connection's scheduler drops a request for a tick if the tick for that time was handled
  already. `TransportWakeUps.WakefulIff` says when a message is left waiting by this, and
  `TransportWakeUps.WakeUpIsLost` is a run in which it waits in front of a free port after the
  last event.
- A work-group count of 2^32 or more wraps around in the driver; work-groups are then given to
  no GPU, although the "not all wg allocated" panic stays silent (`WorkGroups.CoveredIff`, and
  `WorkGroups.WrapLosesWorkGroups` for one grid).
- A work-group that is cut off can leave a 64-block without its first work-item; the later items
  of the block then join the wavefront before it, and some work-item is the position of no lane
  (`Wavefronts.CutGroupIsNot`, `Wavefronts.EveryItemDecodedIff`).
- The emulator's multi-page write looks up one page only, so it is a write to virtual memory
  exactly when the range is physically consecutive (`PagedCopy.WriteIsFlatIff`, with the input
  `PagedCopy.WriteAcrossPages`). Its read assumes that pages consist of whole blocks of its own
  page size; it is a read of virtual memory exactly when each block of the range is physically
  consecutive (`PagedCopy.ReadIsFlatIff`).
- The busy-time tracer says that overlapping time counts once. It does exactly when no two tasks
  that share time belong to different clusters (`BusyTime.TaskBusyTime`); for a chain of tasks
  it counts twice (`BusyTime.ChainCountsTwice`).
- A copy command that has no requests from the start, or whose last answer is that of a flush,
  is never dequeued (`CommandQueue.StuckIff`, `CommandQueue.StuckForever`, with the runs
  `CommandQueue.EmptyCopyIsStuck` and `CommandQueue.LateFlushIsStuck`).
- The cycles of a copy may be negative. Its requests then wait until another copy starts
  (`CommandProgress.CopiesWaitIff`).
- The parallel engine takes empty rounds forever if all that is queued is secondary and due at
  the largest time (`ParallelEngine.RoundHasWorkIff`, `ParallelEngine.SpinsForever`, with the run
  `ParallelEngine.SpinningRun`).
- A pipeline can be built with no or with negative cycles per stage. An item then takes one tick
  per stage (`PipelineRuns.NobodyLeavesEarly`, `PipelineRuns.EverybodyLeavesOnTime`), and the
  cycles written down do not measure its progress (`Pipeline.PlainIff`).

## Conventions

- `VTimeInSec` is `real` (integer ticks in `BusyTime`); a clock is any function that moves time
  forward, and `Freq` proves that every positive frequency gives one.
- A panic of the source is a precondition of the method that would panic; that it is never
  reached is proved over runs. A panic inside a loop is a branch proved dead.
- Each handler call is one atomic step. In the parallel engine, starting a worker, a worker
  scheduling an event and a worker finishing are separate steps.
- Arguments that the source takes from fields of a message (`SendTime`, `RecvTime`) are
  parameters; what a port accepts, what a handler schedules, the order of a pass over a map and
  the sizes of copies are chosen freely by the environment.
- Histories (what was scheduled, accepted, answered, dequeued) are part of the states, and ghost
  fields of the classes.

## Model

| member | source | states |
|---|---|---|
| Freq.NextTickBounds | akita/sim/freq.go:55-61 | the next tick is a whole cycle between 0.05 and 1.05 cycles after the given time, hence strictly later |
| Freq.ThisTickBounds | akita/sim/freq.go:40-46 | this tick is a whole cycle at most 0.05 cycles before and 0.95 cycles after the given time |
| Freq.TicksOnWholeCycle | akita/sim/freq.go:40-61 | on whole cycle k, this tick is k and the next tick is k + 1 |
| Freq.ThisTickIdempotent | akita/sim/freq.go:40-71 | rounding to this tick twice changes nothing more, and counting cycles ends on a whole cycle |
| Freq.NCyclesLaterExact | akita/sim/freq.go:66-71 | from a whole cycle, n cycles later is exactly n cycles later |
| Freq.FrequencyAdvances | akita/sim/freq.go:55-61 | every positive frequency gives a clock that moves time forward |
| Transport.IssuedIncrease | akita/sim/ticker.go:74-109 | whatever a tick scheduler is asked for, the times it issues strictly increase |
| Transport.IssuedIsScheduled | akita/sim/ticker.go:74-109 | whatever times a component's scheduler is asked for one after the other, the engine gets one primary event for each issued time and nothing else |
| Transport.ConnIssuedIsScheduled | akita/sim/ticker.go:57-109 | the same for the connection's scheduler, with secondary events |
| Transport.ForwardShrinks | akita/sim/directconnection.go:121-149 | forwarding one end never lengthens a buffer, leaves all other ends alone and does not move time |
| Transport.TickUnfolds | akita/sim/directconnection.go:108-119 | a tick asks for another one exactly if some port made progress, which is to say some end's buffer got shorter |
| TransportTick.ServedOnce | akita/sim/directconnection.go:108-119 | in a tick every port is served, and none twice; the i-th one is the i-th port from the turn on, once around |
| TransportTick.FirstFromTheTurn | akita/sim/directconnection.go:108-149 | of the ends with messages for a port with room, the first one from the turn on goes first: the message at its head is the next one that the port gets |
| TransportTick.OthersWait | akita/sim/directconnection.go:108-149 | if that port has room for one message only, that is all it gets, and no message of another end for it moves |
| TransportTick.ServeBlocks | akita/sim/directconnection.go:108-149 | after serving all ports each end is empty or its head faces a full port marked busy, all messages moved in order, and bounds and pending ticks are kept |
| TransportTick.ForwardFacts | akita/sim/directconnection.go:121-149 | forwarding an end moves its messages in order to their ports, wakes the receivers and the refused sender, and ends blocked |
| TransportRuns.StepInv | akita/sim/directconnection.go:40-79 | every action of a component, of the engine or of the connection, at any time the engine accepts, keeps the invariant of the whole system |
| TransportRuns.TakenInOrder | akita/sim/port.go:116-141 | messages from one port to another are taken in the order in which they were handed over |
| TransportRuns.CapacitiesHold | akita/sim/buffer.go:50-69 | no port, end or sender buffer ever exceeds its capacity |
| TransportRuns.TicksAreFresh | akita/sim/ticker.go:74-109 | the connection never ticks twice at one time, and time never runs backwards |
| TransportRuns.ComponentsAreWoken | akita/sim/ticker.go:122-145 | the owner of a port that gets a message, or of an end that stops refusing, has a tick queued for the next tick of its clock, or for a later time that it had asked for |
| TransportTurns.RefusedAreWoken | akita/sim/directconnection.go:45-144 | in a run a sender that asked for room or tried to send while its end was full is woken as soon as the end gets shorter, which only a tick of the connection does |
| TransportTurns.TicksAgain | akita/sim/directconnection.go:108-119 | in a run the connection has a tick queued for the next tick of its clock, or a later one it had asked for, after a tick that shortened some end, and asks for none after any other tick |
| TransportTurns.TurnGoesAround | akita/sim/directconnection.go:108-119 | in a run the port that comes first moves on by one with each tick of the connection, around all ports |
| TransportTurns.FirstOnceInARound | akita/sim/directconnection.go:108-119 | of as many ticks in a row as there are ports, each port comes first in exactly one |
| TransportTurns.TurnMoves | akita/sim/directconnection.go:108-149 | when a port comes first and the head of its end is for a port with room, that message moves, whoever else sends there |
| TransportTurns.OnlyTheTouchedAreCalled | akita/sim/directconnection.go:121-149 | a tick of the connection asks no component to tick unless a port of it got a message or an end of it that had refused one got shorter |
| TransportTurns.AsksIff | akita/sim/ticker.go:74-90 | a component that uses its ports has the connection tick now exactly if an end got a message or a port that had refused one has room again, unless the connection asked for now or later already |
| TransportWakeUps.StepWakesIff | akita/sim/ticker.go:74-90 | a step leaves a message waiting with no tick queued if and only if it needs a tick for now, the one for now was handled and no other one is queued |
| TransportWakeUps.WakefulIff | akita/sim/ticker.go:74-90 | in a run the connection is wakeful all the time if and only if no such step is taken |
| TransportWakeUps.BehavedDropsNothing | akita/sim/serialengine.go:109-128 | no such step is taken while ports are used in primary events only and nobody else schedules primary events for a time at which the connection has ticked |
| TransportWakeUps.WakeUpsAreNeverLost | akita/sim/port.go:88-141 | as long as no request is dropped, a tick of the connection is queued or every waiting message faces a full port that will call back |
| TransportWakeUps.DryQueuesDeliverAll | akita/sim/directconnection.go:108-149 | then, when the event queues run dry and no port is full, the connection holds nothing and every message is accounted for in order |
| TransportWakeUps.WakeUpIsLost | akita/sim/ticker.go:74-90 | a run of 13 actions, all but one behaved, after which no event is left and a message waits in front of a port with room |
| Connection.Buffer.Push | akita/sim/buffer.go:54-69 | pushing appends, within the capacity |
| Connection.Buffer.Pop | akita/sim/buffer.go:71-89 | popping takes the first element, or nothing from an empty buffer |
| Connection.TickScheduler.TickNow | akita/sim/ticker.go:74-90 | a tick is requested once, unless one at that time or later was requested before |
| Connection.TickScheduler.TickLater | akita/sim/ticker.go:93-109 | the same for the next tick of the clock |
| Connection.LimitNumMsgPort.Recv | akita/sim/port.go:88-113 | a full port refuses and marks itself busy; otherwise the message is buffered and the component asked to tick |
| Connection.LimitNumMsgPort.Retrieve | akita/sim/port.go:116-141 | the first message is taken; a busy port becomes free and calls the connection back |
| Connection.DirectConnection.CanSend | akita/sim/directconnection.go:45-58 | equals the step of the state machine: true exactly if the end is not full, and a full end is marked busy |
| Connection.DirectConnection.Send | akita/sim/directconnection.go:61-79 | equals the step: the message is buffered and a tick asked for, or the end marked busy |
| Connection.DirectConnection.ForwardMany | akita/sim/directconnection.go:121-149 | the draining loop equals the recursive specification, and reports progress exactly if the end got shorter |
| Connection.DirectConnection.RetrieveAt | akita/sim/port.go:116-141 | a component taking a message is the step of the state machine, with the call back to the connection |
| Connection.DirectConnection.Handle | akita/sim/directconnection.go:108-119 | handling a tick event equals the connection's tick in the state machine |
| Connection.BufferedSender.CanSend | akita/sim/bufferedsender.go:45-55 | true exactly if so many messages in a row, whichever they are, each find room |
| Connection.BufferedSender.Tick | akita/sim/bufferedsender.go:65-81 | the first message goes to the connection and leaves the sender only if it is taken |
| EventQueue.EventQueueImpl.Push | akita/sim/eventqueue.go:32-36 | the heap gains exactly the event and stays a heap |
| EventQueue.EventQueueImpl.Pop | akita/sim/eventqueue.go:39-44 | takes out exactly the event that Peek showed, one of minimum time, and leaves a heap of the others |
| EventQueue.EventQueueImpl.Peek | akita/sim/eventqueue.go:56-61 | an event of minimum time |
| EventQueue.EventQueueImpl.Up | akita/sim/eventqueue.go:72-85 | sifting up restores the heap order and keeps the events |
| EventQueue.EventQueueImpl.Down | akita/sim/eventqueue.go:72-94 | sifting down restores the heap order and keeps the events |
| EventQueue.RootIsEarliest | akita/sim/eventqueue.go:72-74 | in a heap no event is earlier than the root |
| EventQueue.InsertionQueue.Push | akita/sim/eventqueue.go:110-129 | the event is put before the first later one |
| EventQueue.InsertionQueue.Pop | akita/sim/eventqueue.go:132-137 | the front event, the one that Peek shows, is taken off |
| EventQueue.InsertionQueue.Peek | akita/sim/eventqueue.go:147-154 | shows the event that Pop takes, one of minimum time if the list is in order |
| EventQueue.InsertKeepsOrder | akita/sim/eventqueue.go:110-129 | insertion keeps the list sorted by time and adds exactly the event |
| EventQueue.EqualTimesInPushOrder | akita/sim/eventqueue.go:110-137 | over any sequence of pushes and pops, events of equal time come out in push order |
| EventQueue.PopsAnEarliest | akita/sim/eventqueue.go:132-154 | over any sequence of pushes and pops, each pop returns an earliest event still inside |
| EngineOrder.StartSorted | akita/sim/serialengine.go:109-128 | starting an event that is due keeps the started events sorted by time, primary before secondary |
| EngineOrder.LateUnsorted | akita/sim/serialengine.go:39-51 | a primary event scheduled at a time of which a secondary event has started breaks the order once it starts |
| SerialEngine.TimeNeverDecreases | akita/sim/serialengine.go:67-103 | the next event is never in the past, so the panic is unreachable and time never decreases |
| SerialEngine.TimeIsTheLastEvents | akita/sim/serialengine.go:67-103 | the time of the engine is that of the event handled last |
| SerialEngine.SecondaryLast | akita/sim/serialengine.go:109-128 | a secondary event is handled only when no primary event of its time or earlier waits |
| SerialEngine.ScheduledOnceHandledOnce | akita/sim/serialengine.go:39-107 | scheduled events are at all times the disjoint union of handled and waiting ones, and all handled when nothing waits |
| SerialEngine.SomethingIsNext | akita/sim/serialengine.go:105-128 | as long as an event waits there is a next one |
| SerialEngine.SortedIffDisciplined | akita/sim/serialengine.go:67-128 | a run that leaves nothing waiting is sorted if and only if no primary event was scheduled at the time of an already handled secondary one |
| SerialEngine.SerialEngine.Schedule | akita/sim/serialengine.go:39-51 | the event joins the queue of its kind |
| SerialEngine.SerialEngine.NoMoreEvent | akita/sim/serialengine.go:105-107 | both queues are empty |
| SerialEngine.SerialEngine.NextEvent | akita/sim/serialengine.go:109-128 | takes exactly one event that comes next out of its queue |
| SerialEngine.SerialEngine.RunNext | akita/sim/serialengine.go:67-103 | one round of the loop: the next event leaves its queue and is handled at its time, and exactly the events that the handler asks for are added |
| SerialEngine.ScheduledAreAll | akita/sim/serialengine.go:39-51 | scheduling several events adds each of them to what waits, and does not move time |
| ParallelEngine.StepInv | akita/sim/parallelengine.go:105-276 | every step of the loop and of a worker keeps the invariant, and time does not decrease |
| ParallelEngine.NeverInThePast | akita/sim/parallelengine.go:220-276 | whatever is queued or handled is due now or later, so neither the loop nor a worker meets an event in the past |
| ParallelEngine.SchedulingIsAccepted | akita/sim/parallelengine.go:105-123 | time stands still while a handler runs, so events from its own time on are accepted |
| ParallelEngine.StartedExactlyOnce | akita/sim/parallelengine.go:126-138 | every scheduled event is queued, running or finished exactly once, and finished when Run returns |
| ParallelEngine.RoundStartsDue | akita/sim/parallelengine.go:220-242 | once all queues are returned, a round has started exactly the events of its group that were due when it began, whatever the workers scheduled meanwhile |
| ParallelEngine.SortedIffDisciplined | akita/sim/parallelengine.go:126-183 | when Run returns, the starts are sorted under every interleaving if and only if the serial engine's condition holds |
| ParallelEngine.BehavedIsSorted | akita/sim/parallelengine.go:140-242 | if no handler of a secondary event schedules a primary event at the current time, and neither does anybody outside the handlers once an event has started, the starts are sorted at every point of a run |
| ParallelEngine.DispatchEnds | akita/sim/parallelengine.go:220-242 | every step of the dispatch loop brings it closer to its end |
| ParallelEngine.WorkersDoNotDelay | akita/sim/parallelengine.go:105-123 | no worker can delay the dispatch loop, since it pushes only into queues that were returned |
| ParallelEngine.NeverBlocks | akita/sim/parallelengine.go:126-192 | unless Run returns, the loop or a worker can take a step |
| ParallelEngine.RoundHasWorkIff | akita/sim/parallelengine.go:140-169 | the group chosen for a round holds a due event exactly if some event is earlier than the largest time or a primary one is due at it |
| ParallelEngine.SpinsForever | akita/sim/parallelengine.go:126-242 | if events wait but none like that, no event is ever started again, the queues stay as they are and Run goes on, until something is scheduled from outside |
| ParallelEngine.SpinningRun | akita/sim/parallelengine.go:126-169 | one secondary event at the largest time is enough |
| ParallelDispatch.RoundEngine.EarliestTimeInQueueGroup | akita/sim/parallelengine.go:154-169 | the earliest time in a group of heaps, or the largest time |
| ParallelDispatch.RoundEngine.HasMoreEvents | akita/sim/parallelengine.go:194-218 | some queue of either group holds an event |
| ParallelDispatch.RoundEngine.DetermineWhatToRun | akita/sim/parallelengine.go:140-152 | the round is that of the earlier group, the primary one on a tie, at its time |
| ParallelDispatch.RoundEngine.DrainQueue | akita/sim/parallelengine.go:220-242 | takes exactly the due events out of a queue in which nothing is in the past |
| ParallelDispatch.RoundEngine.RunEventsUntilConflict | akita/sim/parallelengine.go:220-242 | every queue of the group is drained of exactly its due events |
| MigrationRuns.NeverPanics | mgpusim-V1/driver/driver.go:586-836 | no answer finds the driver without its request or a counter at zero |
| MigrationRuns.CountersAreExact | mgpusim-V1/driver/driver.go:575-836 | each counter is the number of requests of its kind that are still unanswered |
| MigrationRuns.PhasesInOrder | mgpusim-V1/driver/driver.go:586-836 | while a request of one phase is pending, all requests of the earlier phases are done and no other kind is pending |
| MigrationRuns.OnePageAtATime | mgpusim-V1/driver/driver.go:724-759 | at most one page copy is under way, and nothing else beside it |
| MigrationRuns.AllWorkCounts | mgpusim-V1/driver/driver.go:575-673 | a job is one drain and un-drain for each GPU, one shootdown of all pages and one restart for each accessing entry, and one copy for each page, as often as the request of the MMU lists it for a GPU |
| MigrationRuns.JobEndsComplete | mgpusim-V1/driver/driver.go:825-836 | when a job ends, exactly the requests that the request of the MMU stands for were answered, nothing is pending and all counters are zero |
| MigrationRuns.FirstComeFirstSent | mgpusim-V1/driver/driver.go:196-210 | requests leave for the network one at a time, in the order in which they were prepared |
| MigrationRuns.PreparedInOrder | mgpusim-V1/driver/driver.go:586-823 | whenever requests to GPUs are prepared, they are those of the next phase: drains and un-drains by ascending GPU, shootdowns and restarts as the MMU lists the accessing GPUs |
| MigrationRuns.CopiesInRows | mgpusim-V1/driver/driver.go:653-668 | whenever copies are prepared, those of each GPU come one after the other in the order of its list of pages |
| MigrationRuns.StepsAddUp | mgpusim-V1/driver/driver.go:552-851 | in every order of answers, the steps taken and the steps left add up to the cost of the jobs, so each job takes exactly its cost |
| MigrationRuns.RunsAreBounded | mgpusim-V1/driver/driver.go:552-851 | no run takes more steps than its jobs cost, whatever they contain |
| MigrationRuns.AnsweredIffGood | mgpusim-V1/driver/driver.go:552-851 | when nothing can go on, all jobs are answered and the driver is idle if and only if every job had a GPU, an accessing GPU and a GPU with a non-empty list of pages |
| MigrationRuns.GoodIff | mgpusim-V1/driver/driver.go:599-668 | a job can be completed if and only if there is a GPU, some GPU accesses, and some GPU up to the last one has a non-empty list of pages |
| MigrationRuns.Finish | mgpusim-V1/driver/driver.go:552-851 | every run can be driven on, without a further request of the MMU, until nothing is left to do |
| MigrationRuns.JobRun | mgpusim-V1/driver/driver.go:552-851 | every job has a run of its own that ends with its answer if it has a GPU, an accessing GPU and a page, and wedged otherwise |
| MigrationRuns.NobodyAccesses | mgpusim-V1/driver/driver.go:599-629 | a request for one page that no GPU accesses wedges the driver |
| MigrationRuns.AnswersAreExact | mgpusim-V1/driver/driver.go:775-803 | jobs are answered at most once, in order, each address as often as the lists of the GPUs have it |
| PageMigration.AddrsAreRequested | mgpusim-V1/driver/driver.go:599-613 | the addresses of the requesting GPUs are the lists of the request one after the other, by ascending GPU |
| PageMigration.AnyOrder | mgpusim-V1/driver/driver.go:653-668 | every order of the pass over the map of pages requests and lists the same pages |
| PageMigration.WedgedIsDead | mgpusim-V1/driver/driver.go:552-573 | once a phase turned out empty, no step of anyone is possible any more |
| MigrationDriver.MigratingDriver.ParseFromMMU | mgpusim-V1/driver/driver.go:552-584 | a request is taken when idle, and every GPU is asked to drain |
| MigrationDriver.MigratingDriver.ProcessRDMADrainRsp | mgpusim-V1/driver/driver.go:586-597 | equals the step of the state machine for a drain answer |
| MigrationDriver.MigratingDriver.RequestedVAddrs | mgpusim-V1/driver/driver.go:599-613 | the lists of the request one after the other, by ascending GPU |
| MigrationDriver.MigratingDriver.SendShootDownReqs | mgpusim-V1/driver/driver.go:599-629 | one shootdown of all pages for each accessing entry, counted |
| MigrationDriver.MigratingDriver.FindRequestingGPUs | mgpusim-V1/driver/driver.go:676-688 | the requesting GPUs in ascending order |
| MigrationDriver.MigratingDriver.ProcessShootdownCompleteRsp | mgpusim-V1/driver/driver.go:631-674 | equals the step for a shootdown answer, for some order of the map |
| MigrationDriver.MigratingDriver.ProcessPageMigrationRspFromCP | mgpusim-V1/driver/driver.go:746-759 | equals the step for a copy answer, for some order of the map |
| MigrationDriver.MigratingDriver.PreparePageMigrationRspToMMU | mgpusim-V1/driver/driver.go:775-803 | the answer lists the pages of all requesting GPUs in some order of the map |
| MigrationDriver.MigratingDriver.HandleGPURestartRsp | mgpusim-V1/driver/driver.go:805-823 | equals the step for a restart answer |
| MigrationDriver.MigratingDriver.ProcessRDMARestartRspToDriver | mgpusim-V1/driver/driver.go:825-836 | equals the step for an un-drain answer |
| MigrationDriver.MigratingDriver.SendMigrationReqToCP | mgpusim-V1/driver/driver.go:724-744 | if no copy is under way and the port takes the first one, equals the step that sends it; otherwise nothing changes |
| MigrationDriver.MigratingDriver.SendToGPUs | mgpusim-V1/driver/driver.go:196-210 | if the port takes the first request, equals the step that sends it; otherwise nothing changes |
| MigrationDriver.MigratingDriver.SendToMMU | mgpusim-V1/driver/driver.go:838-851 | if the port takes the answer, equals the step that sends it; otherwise nothing changes |
| CommandQueue.CommandIsFound | mgpusim-V1/driver/driver.go:494-550 | every returned request is found at the head of a queue, in a command of its kind |
| CommandQueue.EachRequestInOnePlace | mgpusim-V1/driver/memorycopy.go:38-140 | every outstanding request is in exactly one place, once, and these are exactly the requests of the heads |
| CommandQueue.CommandsInOrder | mgpusim-V1/driver/commandqueue.go:66-101 | a queue has at most one active command, and commands leave in order, none while it is owed a request |
| CommandQueue.StepInv | mgpusim-V1/driver/driver.go:269-385 | every step of the driver, the middleware, the network and the program is safe and keeps the invariant |
| CommandQueue.JobsAreExact | mgpusim-V1/driver/memorycopy.go:38-140 | what a command was started with is what was answered since and what it is still owed |
| CommandQueue.StuckIff | mgpusim-V1/driver/memorycopy.go:38-308 | in every reachable state, a queue runs a command that is owed nothing if and only if that is a copy that started with no requests or whose last answer, of all it was to get, is that of a flush |
| CommandQueue.StuckForever | mgpusim-V1/driver/memorycopy.go:235-308 | in every later state of the run such a queue still has the same command at its head |
| CommandQueue.EmptyCopyIsStuck | mgpusim-V1/driver/memorycopy.go:38-91 | a copy of no bytes that needs no flush ends there |
| CommandQueue.LateFlushIsStuck | mgpusim-V1/driver/memorycopy.go:293-308 | and so does a copy with one flush that is answered after the copying |
| CommandProgress.CopiesWaitIff | mgpusim-V1/driver/memorycopy.go:86-202 | in a run, until the next copy starts, the requests of a copy wait exactly as long as the middleware has ticked no more often than the copy takes cycles, and all the time if that is negative |
| CommandProgress.HandedOver | mgpusim-V1/driver/memorycopy.go:189-202 | with the tick after that they go behind the requests to be sent, in order, and none waits any more |
| CommandProgress.StartsInOrder | mgpusim-V1/driver/memorycopy.go:38-187 | a command starts with as many new requests of its own kind as it needs, numbered in order: the flushes of a copy and the requests of a launch go behind those to be sent, the others of a copy behind those that wait |
| CommandProgress.FirstComeFirstSent | mgpusim-V1/driver/driver.go:196-210 | requests are sent one at a time in the order in which they were handed over |
| CommandProgress.QueuesMove | mgpusim-V1/driver/driver.go:475-492 | a command leaves its queue exactly when it is a no-op or gets the last answer it is owed and that is not for a flush; then the queue is free, and until then it stays at work |
| CommandQueueDriver.RemoveMsgFromMsgList | mgpusim-V1/driver/command.go:166-174 | removes the first occurrence of a request and keeps the order of the others |
| CommandQueueDriver.KeepOthers | mgpusim-V1/driver/memorycopy.go:247-253 | filtering a request out is the same as removing it if it occurs once |
| CommandQueueDriver.QueueObject.EnqueueCommand | mgpusim-V1/driver/commandqueue.go:66-71 | a command goes last |
| CommandQueueDriver.QueueObject.DequeueCommand | mgpusim-V1/driver/commandqueue.go:74-81 | the first command leaves |
| CommandQueueDriver.QueueObject.TakeAnswerOf | mgpusim-V1/driver/driver.go:475-492 | an answer is taken off the first command, and the last one ends it unless it is a flush |
| CommandQueueDriver.CommandDriver.ProcessNoopCommand | mgpusim-V1/driver/driver.go:337-344 | equals the step: the command is dequeued at once |
| CommandQueueDriver.CommandDriver.ProcessLaunchKernelCommand | mgpusim-V1/driver/driver.go:361-438 | equals the step: new requests are owed and to be sent |
| CommandQueueDriver.CommandDriver.ProcessMemCopyCommand | mgpusim-V1/driver/memorycopy.go:38-140 | equals the step: flushes are to be sent, copies wait for the cycles |
| CommandQueueDriver.CommandDriver.Tick | mgpusim-V1/driver/memorycopy.go:189-202 | equals the step: counts down, then hands the waiting requests over |
| CommandQueueDriver.CommandDriver.SendOne | mgpusim-V1/driver/driver.go:196-210 | equals the step: the first request to be sent is under way |
| CommandQueueDriver.CommandDriver.FindCommandByReq | mgpusim-V1/driver/driver.go:494-518 | the first queue whose head is owed the request |
| CommandQueueDriver.CommandDriver.ProcessReturn | mgpusim-V1/driver/memorycopy.go:235-308 | equals the step for an answer |
| MixedRadix.AtFlat | mgpusim-V1/driver/driver.go:411-417 | flattening a position is undone by taking it apart |
| MixedRadix.FlatAt | mgpusim-V1/driver/driver.go:411-417 | taking a flattened number apart is undone by flattening |
| MixedRadix.FlatInBox | mgpusim-V1/driver/driver.go:411-417 | positions in a box have numbers below its volume |
| MixedRadix.FlatOrders | mgpusim-V1/driver/driver.go:411-417 | flattened numbers are in the order of the positions, layer by layer and in a layer row by row |
| WorkGroups.DistributeWGToGPUs | mgpusim-V1/driver/driver.go:441-473 | the shares are the prefix sums of compute units times the share of one, each the one before plus that of its GPU, and the panic is unreachable for all sizes |
| WorkGroups.PerCUIsCeiling | mgpusim-V1/driver/driver.go:454-458 | the share of a compute unit is the number of work-groups over that of compute units, rounded up |
| WorkGroups.AtMostOneGPU | mgpusim-V1/driver/driver.go:407-425 | no two filters accept the same work-group |
| WorkGroups.CoveredIff | mgpusim-V1/driver/driver.go:407-473 | with fewer than 2^32 compute units, every work-group is accepted by some filter if and only if their number is below 2^32 |
| WorkGroups.CoveredIfShared | mgpusim-V1/driver/driver.go:407-473 | with any number of compute units, if and only if the shares reach the number of work-groups |
| WorkGroups.SharedIff | mgpusim-V1/driver/driver.go:454-466 | the shares reach the number of work-groups below 2^32, and not from there on unless there are as many compute units |
| WorkGroups.WrapLosesWorkGroups | mgpusim-V1/driver/driver.go:454-471 | a grid whose count wraps around and most of whose work-groups are given to no GPU |
| GridBuilder.Builder.SetKernel | mgpusim-V1/kernels/gridbuilder.go:43-55 | all accepted work-groups remain to be yielded, and are counted |
| GridBuilder.Builder.NextWG | mgpusim-V1/kernels/gridbuilder.go:95-148 | yields the first remaining accepted work-group, of the size of the packet and along each side with exactly the places that lie on the grid, and after the last one nothing forever |
| GridBuilder.CountWG | mgpusim-V1/kernels/gridbuilder.go:63-89 | counting x-first equals the number of work-groups that are yielded |
| GridBuilder.AcceptedOnce | mgpusim-V1/kernels/gridbuilder.go:95-148 | the yielded work-groups are exactly the accepted ones, each once |
| GridBuilder.AcceptedAscends | mgpusim-V1/kernels/gridbuilder.go:120-132 | they come in the order of their flattened numbers |
| GridBuilder.YieldedInRows | mgpusim-V1/kernels/gridbuilder.go:120-132 | they come layer by layer, in a layer row by row |
| GridBuilder.PointsTile | mgpusim-V1/kernels/gridbuilder.go:99-118 | every point of a side lies in exactly one place of one work-group, and conversely |
| GridBuilder.GroupFits | mgpusim-V1/kernels/gridbuilder.go:99-118 | a work-group has the size of the packet and along each side exactly the places that lie on the grid |
| GridBuilder.PointInGroup | mgpusim-V1/kernels/gridbuilder.go:99-118 | such a work-group holds exactly the points of the grid whose coordinates divided by its size give its position |
| GridBuilder.PointOnce | mgpusim-V1/kernels/gridbuilder.go:95-148 | without a filter, every point of the grid lies in exactly one of the work-groups that are yielded |
| GridBuilder.GPUsYieldTheGrid | mgpusim-V1/driver/driver.go:387-439 | the lists of all GPUs put one after the other are the flattened grid, each work-group once, if and only if the shares reach the number of work-groups; with fewer than 2^32 compute units, if and only if that number is below 2^32 |
| Wavefronts.SpawnWorkItems | mgpusim-V1/kernels/gridbuilder.go:150-163 | the work-items are exactly the positions of the cut-off box, layer by layer and in a layer row by row |
| Wavefronts.ItemsAscend | mgpusim-V1/kernels/grid.go:77-79 | flattened numbers ascend along the work-items, also in a cut-off work-group |
| Wavefronts.FormWavefronts | mgpusim-V1/kernels/gridbuilder.go:165-183 | the loop equals the step-by-step specification |
| Wavefronts.EachInOneWavefront | mgpusim-V1/kernels/gridbuilder.go:165-183 | every work-item is in exactly one wavefront, for all sizes |
| Wavefronts.PlacedIffBlocksStart | mgpusim-V1/kernels/gridbuilder.go:165-183 | all work-items are in the wavefronts of their own blocks if and only if every occupied block has its first number occupied |
| Wavefronts.MaskIsExact | mgpusim-V1/kernels/gridbuilder.go:165-183 | then bit i of the mask is set exactly if work-item first + i exists, and it is in this wavefront |
| Wavefronts.FullGroupsAreGood | mgpusim-V1/kernels/gridbuilder.go:150-183 | work-groups that are full in x and y meet the condition |
| Wavefronts.CutGroupIsNot | mgpusim-V1/kernels/gridbuilder.go:150-183 | a cut-off work-group that does not |
| Wavefronts.DecodeFlat | mgpusim-V1/emu/computeunit.go:285-291 | the division in the compute unit recovers the position of a work-item |
| Wavefronts.LanesDecode | mgpusim-V1/emu/computeunit.go:285-291 | if every occupied block has its first number occupied, a lane is set exactly if its decoded position is a work-item, and that work-item is in the wavefront |
| Wavefronts.EveryItemDecodedIff | mgpusim-V1/emu/computeunit.go:285-291 | every work-item is the position that some lane which is switched on computes if and only if every occupied block has its first number occupied |
| Wavefronts.InitWorkItemIDs | mgpusim-V1/emu/computeunit.go:285-301 | all 64 lanes get the decoded x, and y and z only if enabled |
| Distributor.Distribute | mgpusim-V1/driver/distributor.go:27-74 | the remapped ranges tile exactly the pages of the bytes, each lies in the part of its GPU, the parts following each other as the GPUs are listed, and the result states and sums up what each GPU got |
| Distributor.TilesOnce | mgpusim-V1/driver/distributor.go:51-71 | each byte of a tiled area is in exactly one range and no other byte in any |
| Distributor.PagesCover | mgpusim-V1/driver/distributor.go:39 | the pages hold the bytes with less than a page to spare |
| Distributor.UsesAll | mgpusim-V1/driver/distributor.go:41-48 | all GPUs get an equal share unless there are fewer pages than GPUs |
| Distributor.PartIsShare | mgpusim-V1/driver/distributor.go:27-74 | the parts cover the pages one after the other, each as long as the share of its GPU; all shares are equal but the last, which exceeds them by fewer pages than there are GPUs, and with fewer pages than GPUs the first GPU gets all |
| Pipeline.LaneTickLowers | akita/pipelining/pipeline.go:84-141 | a tick of a lane keeps the order, brings each item at most one closer, and lets only an item at rank one leave |
| Pipeline.LaneTickSums | akita/pipelining/pipeline.go:84-109 | the sum of the ranks drops by the number of items that made progress |
| Pipeline.ProgressIffRanksDrop | akita/pipelining/pipeline.go:84-109 | a tick makes progress exactly if the sum of the ranks drops |
| Pipeline.TickBringsAllCloser | akita/pipelining/pipeline.go:84-141 | in a spaced lane with room behind, every item gets exactly one closer |
| Pipeline.PlainIff | akita/pipelining/pipeline.go:84-141 | the sum of the cycles written down for the items drops exactly in the ticks that make progress, in all lanes, if and only if there is at least one cycle per stage |
| PipelineRuns.NothingLostNothingOvertaken | akita/pipelining/pipeline.go:84-187 | what a lane accepted is what left it followed by what is inside, in order; what left is consumed or buffered |
| PipelineRuns.NobodyLeavesEarly | akita/pipelining/pipeline.go:84-187 | an item leaves no earlier than its stages' cycles after it was accepted, where a stage takes one tick if it has no cycles |
| PipelineRuns.EverybodyLeavesOnTime | akita/pipelining/pipeline.go:84-187 | if no item that is due meets a full buffer, each leaves exactly then |
| PipelineRuns.NobodyLateIff | akita/pipelining/pipeline.go:111-125 | in a run no item is ever inside after its time if and only if none that is due ever meets a full buffer |
| PipelineRuns.ProgressIffTotalDrops | akita/pipelining/pipeline.go:84-109 | the sum of all ranks drops by the number of items that made progress |
| PipelineRuns.FirstLanesFirst | akita/pipelining/pipeline.go:84-125 | a tick takes the items that are due from the lanes in ascending order as long as the buffer has room, and nothing else; the others stay where they are |
| PipelineRuns.EntersFirstFree | akita/pipelining/pipeline.go:160-187 | an item that is accepted enters the first lane whose first stage is free, or the buffer if there are no stages, and no other lane changes |
| PipelineImpl.PipelineImpl.TryMoveToPostPipelineBuffer | akita/pipelining/pipeline.go:111-125 | the item of the last stage goes to the buffer if that has room |
| PipelineImpl.PipelineImpl.TryMoveToNextStage | akita/pipelining/pipeline.go:127-141 | an item moves on if the next stage is free |
| PipelineImpl.PipelineImpl.TickAll | akita/pipelining/pipeline.go:84-109 | the nested loops equal the tick of the state machine, and report progress exactly if some item made some |
| PipelineImpl.PipelineImpl.CanAcceptItem | akita/pipelining/pipeline.go:144-156 | true exactly if some first stage is free, or the buffer has room if there are no stages |
| PipelineImpl.PipelineImpl.AcceptItem | akita/pipelining/pipeline.go:160-187 | the item goes to the first lane with a free first stage |
| PipelineImpl.PipelineImpl.Clear | akita/pipelining/pipeline.go:76-81 | all stages are empty |
| PagedCopy.MemCopyH2D | mgpusim-V1/driver/memorycopyglobalstorage.go:43-64 | the bytes are written to the virtual range and to no other place, for every length and alignment |
| PagedCopy.MemCopyD2H | mgpusim-V1/driver/memorycopyglobalstorage.go:77-101 | the bytes of the virtual range are read |
| PagedCopy.RoundTrip | mgpusim-V1/driver/memorycopyglobalstorage.go:31-112 | what was written is read back |
| PagedCopy.OthersKept | mgpusim-V1/driver/memorycopyglobalstorage.go:43-64 | every other virtual address keeps its byte |
| PagedCopy.PhysInjective | mgpusim-V1/driver/memorycopyglobalstorage.go:47-52 | different mapped addresses are stored in different places |
| PagedCopy.Read | mgpusim-V1/emu/storageaccessor.go:17-54 | the emulator reads block by block, each from the place of its first address on |
| PagedCopy.ReadByte | mgpusim-V1/emu/storageaccessor.go:22-37 | each byte is read as far from the place of the first address of its block as it lies behind that address, where blocks begin at multiples of the page size |
| PagedCopy.ReadIsFlatIff | mgpusim-V1/emu/storageaccessor.go:22-37 | that is the read of the virtual range for all storages exactly if every block of it is physically consecutive |
| PagedCopy.AlignedReadIsFlat | mgpusim-V1/emu/storageaccessor.go:17-54 | with pages of whole blocks the emulator reads the same bytes as the driver |
| PagedCopy.Write | mgpusim-V1/emu/storageaccessor.go:56-88 | the emulator writes consecutively from the place of the first address on |
| PagedCopy.WriteIsFlatIff | mgpusim-V1/emu/storageaccessor.go:69 | that is the write of the virtual range for all data exactly if the range is physically consecutive |
| PagedCopy.WriteAcrossPages | mgpusim-V1/emu/storageaccessor.go:69 | a write across two pages that is read back wrong and changes places that no address is stored at |
| SweepLine.TaskToTimeStamps | akita/daisen/componentinfo.go:377-399 | the sorted starts and ends of exactly the tasks |
| SweepLine.WeightsPermute | akita/daisen/componentinfo.go:262-264 | the order of equal times does not matter |
| SweepLine.CalculateAvgTaskCount | akita/daisen/componentinfo.go:335-375 | the average times the length of the bin is the weighted sum of the timestamps, and the panic is unreachable |
| SweepLine.StampsWeigh | akita/daisen/componentinfo.go:377-399 | a task's start and end together weigh its overlap with the bin |
| SweepLine.GetTasksInBin | akita/daisen/componentinfo.go:401-429 | the filter keeps exactly the tasks that touch the bin and drops no overlap |
| SweepLine.AverageOfBin | akita/daisen/componentinfo.go:303-311 | the average times the length of the bin is the sum of all tasks' overlaps with it |
| SweepLine.CalculateTimeWeightedTaskCount | akita/daisen/componentinfo.go:273-321 | each bin shows its middle and its own average, and over all bins the averages add up to the overlap with the whole range |
| BusyTime.OverlapIff | akita/tracing/busytimetracer.go:183-197 | tasks overlap exactly if they have a moment in common |
| BusyTime.ExtendFacts | akita/tracing/busytimetracer.go:60-71 | extending by an overlapping task leaves no gap and adds no more than its length |
| BusyTime.Cluster | akita/tracing/busytimetracer.go:154-177 | a cluster takes exactly the uncovered tasks that overlap with its first one, which are those with it as their head, and spans them |
| BusyTime.ClusterCells | akita/tracing/busytimetracer.go:60-71 | the time in the span of a cluster is the time of its tasks |
| BusyTime.CountedOnceIff | akita/tracing/busytimetracer.go:148-181 | the spans sum up to their union exactly if no two share time |
| BusyTime.ApartIff | akita/tracing/busytimetracer.go:154-177 | no two spans share time exactly if no two tasks of different clusters do |
| BusyTime.TaskBusyTime | akita/tracing/busytimetracer.go:148-181 | the busy time is the sum of the clusters' spans, at least the time in which some task runs and at most the total length, and the former exactly if no two tasks of different clusters share time |
| BusyTime.ChainCountsTwice | akita/tracing/busytimetracer.go:148-181 | the two clusters of a chain of three tasks, whose spans sum up to more than the time in which some task runs |

## Left out

- IEEE rounding of times and frequencies: the bounds are for exact arithmetic.
- Threads, mutexes, pausing and channels: each handler call, push and worker event is one atomic step.
- Hooks, tracing, logging, monitoring, ID generation and message boilerplate: not modelled; requests carry numbers that are new when they are made.
- Connection.DirectConnection.Handle: `PlugIn` and `SetConnection` are constructors that wire the objects once; a port's end is found by its position, not by a map.
- ParallelDispatch.RoundEngine.RunEventsUntilConflict: the loop alone; what workers schedule meanwhile are steps of `ParallelEngine`.
- SerialEngine.SerialEngine.RunNext: one round of `Run`; whether the loop ends depends on the handlers.
- ParallelEngine.StartedExactlyOnce: events from outside are scheduled between rounds only, as under `Pause`.
- MigrationDriver.MigratingDriver.ProcessShootdownCompleteRsp: the lookups of the page table, the new page and the host's port for a copy request are not part of this model.
- MigrationDriver.MigratingDriver.SendToGPUs: whether the port takes the message is a parameter, here and in `SendToMMU` and `SendMigrationReqToCP`.
- MigrationRuns.CountersAreExact: counters are unbounded integers; they stay between zero and the number of requests, so 64 bits do not matter.
- CommandQueue.StepInv: all contexts' queues form one list, the requests of page migration are not in it, and the number of requests of a command is a parameter.
- CommandQueueDriver.CommandDriver.ProcessLaunchKernelCommand: the number of requests is a parameter; that GPUs with an empty share get none is not modelled.
- CommandQueueDriver.CommandDriver.ProcessMemCopyCommand: the split of a copy at page borders is the subject of `PagedCopy`; here only the number of requests counts.
- WorkGroups.AtMostOneGPU: flattened numbers are unbounded integers; the source's 64 bits suffice for every grid of fewer than 2^63 work-groups.
- GridBuilder.Builder.NextWG: creating the work-items and wavefronts of a yielded work-group is modelled separately in `Wavefronts`.
- Wavefronts.FormWavefronts: the execution mask is the set of lanes whose bit is set.
- PagedCopy.Read: address converters are left out; a missing page and a block beyond the storage, where the source panics, are excluded.
- SweepLine.TaskToTimeStamps: the library sort is an insertion sort; only its contract is used.
- BusyTime.TaskBusyTime: integer ticks instead of reals; `collapse`, which decides what to sum up when, is not modelled.
- Distributor.Distribute: a byte count of zero, which wraps around in the source, is excluded.
- PipelineRuns.EverybodyLeavesOnTime: `Clear`, which discards items, is not an action of a run.
- Hierarchical names (`tokenizedname.go`): not modelled.
- Liveness of copy commands in general, attestation, encrypted copies, GPU instruction semantics, trace back ends.
