# Models and proofs for flow_sim

flow_sim is a cycle-accurate network-on-chip simulator in Go. This project models its hard
state machines in Dafny and proves what they are for:

* **Synchronisation** (`sync/`, `port/`): nodes and links run concurrently at different cycles
  and meet only in ports. Every load, store, send and receive of `ComponentSync` is one step of
  a state machine, taken in any interleaving; atomics are sequentially consistent.
* **Queues, links and nodes** (`queue/`, `link/`, `node/`, `network/`): classes in the form of
  the code, proved against functions on what they hold, and lemmas about whole runs: the
  tick-ahead optimisation is invisible, the buffered link is a bounded FIFO, input credits are
  sound, and a network of any topology cannot get stuck.
* **Out-of-order core** (`cpu/`): renaming, a circular reorder buffer and the pipeline stages.
  The stages may run in any order, and memory responses may arrive between any two of them.
  What each stage does is stated without its loop, and how fast instructions move over runs.
* **Coherence** (`coherence/`): the MESI directory with caches that use the snoop helpers.
* **DRAM channel** (`dram/`): address mapping, scheduling, mode switching, bank state and data
  bus, with service times, order of service and changes of mode stated on runs.
* **Cache** (`cache/`): timestamp LRU under any order of accesses and fills, miss status
  registers with a lower level or in standalone mode, and the stack property.
* **Transaction migration** (`transaction/`): managers, goroutines and migration requests.

A method is proved to compute a function of the old state, often by an invariant that says that
what remains to be computed has not changed; the lemmas are about those functions. Packets are
values of any type. Counters, cycles and addresses are unbounded. `T` in a link or a queue is
never inspected. Run `dafny verify dfyconfig.toml` to check everything.

Where code and comments of the repository differ, the models follow the code:

* `Receive` sorts packets by their stamp, but a buffered link forwards packets it has held back
  with an old stamp. `BufferedLink.StampsOfDepartures` says exactly which packets are affected,
  and `BackPressure.HeldPacketLeavesWithOldStamp` gives obedient traffic in which one is.
* Asking twice for a cycle that was decided not ready gives the answer ready, and publishing that
  decision again panics: `ReadyWakeup.OutsideTheDiscipline`, with the run
  `ReadyWakeup.AskingTwiceForgets`.
* An input queue with room for less than two bursts overflows or contradicts itself:
  `Credits.TwoBurstsAreNeededAndEnough`, with the run `Credits.FirstBurstFails`.
* The row-hit-first rule of the DRAM scheduler gives way to age at 1000 cycles:
  `Channel.RowHitsFirst` says exactly when a row miss is chosen, and `Channel.OldMissIsChosen`
  gives states in which it is.
* A DRAM channel whose write queue has fewer than two places never serves a read:
  `Drains.DrainsIfAndOnlyIf`.
* No stage sets the mark of a mispredicted branch, so the recovery in `retire` is dead code:
  `O3CPU.NothingIsMispredicted`. Were it reached, it would look for a branch that has already
  left the buffer and keep every instruction behind it: `O3CPU.RecoveryKeepsTheBuffer`, with the
  run `O3CPU.WrongPathSurvives`.
* The directory may answer a request without naming anyone who has the data: in the shared state
  it names a sharer, but a sharer answers snoops without data; and it may name an owner that has
  replaced the line, or, for that owner itself, nobody. `Coherence.SuppliersOfData` says exactly
  when, and `Coherence.ThirdReaderHasNoSupplier` and `Coherence.FormerOwnerHasNoData` give runs.

* A transaction that has moved and returns without calling `Complete` stays in the migrated table
  of its node for ever: `TokenPassing.HeldUntilItsEnd`.

## Model

| member | source | states |
|---|---|---|
| `DoneWakeup.StepKeepsInv` | internal/core/ahead_port/sync.go:60-106 | every step of waiter or setter keeps: a waiter blocked on a reached cycle has a token or a setter that is about to send one |
| `DoneWakeup.NoLostWakeup` | internal/core/ahead_port/sync.go:60-106 | in every interleaving, with the setter at rest, a blocked waiter's cycle is not done |
| `DoneWakeup.WaitDoneReturns` | internal/core/ahead_port/sync.go:84-106 | once the cycle is done every enabled waiter step gets closer to returning, and otherwise the setter moves and finishes |
| `DoneWakeup.WaitDoneIsSound` | internal/core/ahead_port/sync.go:84-106 | with cycles reported in order, WaitDone returns only when its cycle is done, and done never goes back |
| `DoneWakeup.FlagIsCleared` | internal/core/ahead_port/sync.go:84-106 | after any schedule the waiting flag is set exactly while WaitDone is past announcing itself |
| `DoneWakeup.NoNeedlessWakeup` | internal/core/ahead_port/sync.go:60-76 | while only cycles before those waited for are set, no token is sent in any interleaving |
| `ReadyBoard.CompactKeepsMeaning` | internal/core/ahead_port/sync.go:269-283 | compaction changes the decision of no cycle |
| `ReadyBoard.PublishIsWriteOnce` | internal/core/ahead_port/sync.go:226-285 | publishing decides one undecided cycle and changes no other |
| `ReadyBoard.PruneForgetsThePast` | internal/core/ahead_port/sync.go:153-177 | pruning keeps every later decision, and makes every cycle up to the one asked for count as ready |
| `ReadyBoard.JumpToDecidesThePast` | internal/core/ahead_port/sync.go:301-320 | SetReadyUntil declares exactly the cycles below its argument ready |
| `ReadyBoard.ComponentSync.CheckStatesAndPrune` | internal/core/ahead_port/sync.go:153-177 | answers with the recorded decision and leaves the pruned board |
| `ReadyBoard.ComponentSync.IsReadyNonBlocking` | internal/core/ahead_port/sync.go:180-206 | answers with the recorded decision without changing anything; its two looks are separate steps in module ReadyWakeup |
| `ReadyBoard.ComponentSync.UpdateReady` | internal/core/ahead_port/sync.go:209-285 | panics exactly on a contradiction and otherwise publishes, fast path, growth and compaction included |
| `ReadyBoard.ComponentSync.SetReadyUntil` | internal/core/ahead_port/sync.go:301-320 | leaves the board after the jump |
| `ReadyWakeup.StepKeepsWakeInv` | internal/core/ahead_port/sync.go:112-298 | every step keeps: a blocked asker whose cycle is decided has a token or a publisher about to send one |
| `ReadyWakeup.NoLostWakeup` | internal/core/ahead_port/sync.go:112-151 | in every interleaving, and in any order of publication, an asker blocked with the publisher at rest asks for an undecided cycle |
| `ReadyWakeup.ReadyReturns` | internal/core/ahead_port/sync.go:112-151 | once the cycle is decided every enabled step gets closer to returning |
| `ReadyWakeup.PublisherDoesNotDisturb` | internal/core/ahead_port/sync.go:209-298 | publisher steps move no waiter, undo no decision, and come to an end |
| `ReadyWakeup.StepIsFaithful` | internal/core/ahead_port/sync.go:112-285 | every allowed step keeps fields and published decisions in agreement, and changes no decision |
| `ReadyWakeup.ReadyIsWriteOnce` | internal/core/ahead_port/sync.go:112-285 | for a publisher that goes in order and an asker that moves forward, every answer of Ready, and every answer of IsReadyNonBlocking but undecided, is the published decision, decisions never change, and neither panic fires |
| `ReadyWakeup.PeekIsExact` | internal/core/ahead_port/sync.go:180-206 | IsReadyNonBlocking, with its lock-free look and its second look under the lock, tells what is published at the moment it answers |
| `ReadyWakeup.PeekReturns` | internal/core/ahead_port/sync.go:180-206 | it answers in two steps and waits only for a publisher that is about to release the lock |
| `ReadyWakeup.OutsideTheDiscipline` | internal/core/ahead_port/sync.go:170-176 | a repeated question is answered right if and only if the cycle was ready or is not pruned; a repeated refusal panics if and only if it is pruned |
| `ReadyWakeup.AskingTwiceForgets` | internal/core/ahead_port/sync.go:170-176 | a run in which the repeated question is answered wrong |
| `ReadyWakeup.FlagIsCleared` | internal/core/ahead_port/sync.go:112-151 | after any schedule the waiting flag is set exactly while Ready is past announcing itself |
| `ReadyWakeup.NoNeedlessWakeup` | internal/core/ahead_port/sync.go:287-298 | while only cycles before those asked for are decided, no token is sent in any interleaving |
| `PortDelivery.Port.TrySend` | internal/core/ahead_port/port.go:124-132 | sends exactly if downstream is ready |
| `PortDelivery.Port.Drain` | internal/core/ahead_port/port.go:196-220 | empties the channel into the cache, by stamp and in order |
| `PortDelivery.Port.Collect` | internal/core/ahead_port/port.go:175-191 | returns and forgets all packets with the stamp, and keeps all others |
| `PortDelivery.StepKeepsInv` | internal/core/ahead_port/port.go:124-220 | every send, mark and drain keeps: received, cached and travelling packets are the packets sent, per stamp and in order |
| `PortDelivery.DeliveryIsExact` | internal/core/ahead_port/port.go:166-192 | in every interleaving Receive(c) returns exactly the packets stamped c in send order, nothing is lost, and only later stamps stay cached |
| `PortDelivery.DeliveryIgnoresInterleaving` | internal/core/ahead_port/port.go:166-192 | two runs that sent the same have received the same |
| `PortDelivery.ReceiveReturns` | internal/core/ahead_port/port.go:166-192 | only an unfinished cycle of the sender holds Receive up, and every other step gets closer to returning |
| `OutputQueue.OutputQueue.constructor` | internal/core/queue/output_queue.go:41-57 | an empty ring, with the default capacity where none is given |
| `OutputQueue.OutputQueue.Tick` | internal/core/queue/output_queue.go:72-115 | the first min(bandwidth, length) packets leave in order with the stamp of the cycle if downstream is ready, none otherwise; the cycle is marked done |
| `OutputQueue.OutputQueue.InjectPackets` | internal/core/queue/output_queue.go:119-144 | all packets are appended in order, or none |
| `TickAhead.BaseNode.TickOneQueue` | internal/core/node/node.go:529-562 | the loop over current and future cycles, as a function of the queue |
| `TickAhead.BaseNode.TickOutputQueues` | internal/core/node/node.go:520-565 | every queue is ticked ahead on its own |
| `TickAhead.BaseNode.AdvanceTo` | internal/core/node/node.go:568-596 | fails exactly if some queue would overflow, and otherwise leaves every queue as its own run does |
| `TickAhead.FutureTickAgrees` | internal/core/node/node.go:541-551 | a future tick of a queue with a full burst sends what the lockstep queue sends |
| `TickAhead.CycleSimulates` | internal/core/node/node.go:520-565 | one cycle keeps: lockstep queue = ahead queue followed by later injections |
| `TickAhead.AheadIsShorter` | internal/core/node/node.go:520-565 | a queue that is ahead has room whenever the lockstep queue has |
| `TickAhead.TickAheadIsInvisible` | internal/core/node/node.go:519-596 | for every ready function, injection schedule and split into AdvanceTo calls that do not fail, packets, stamps, marks and contents are those of lockstep ticking; and none fails if the schedule fits a lockstep queue |
| `TickAhead.DoneInOrder` | internal/core/queue/output_queue.go:111-112 | each cycle is marked done once, in increasing order |
| `TickAhead.StampsInOrder` | internal/core/queue/output_queue.go:82-109 | stamps never decrease, and only ready cycles are stamped |
| `TickAhead.SentIsInjected` | internal/core/queue/output_queue.go:72-144 | the packets sent followed by those that wait are the packets injected, in order, for every schedule and ready function |
| `TickAhead.RunIsFifo` | internal/core/node/node.go:519-596 | and so they are in every run of AdvanceTo calls that does not fail |
| `TickAhead.BurstsAreFull` | internal/core/queue/output_queue.go:82-109 | in a ready cycle min(bandwidth, packets there) packets leave, in any other none, with the stamp of the cycle and behind those sent before |
| `TickAhead.TicksAsFarAsItMay` | internal/core/node/node.go:529-562 | after each cycle of a window a queue is level with the end of the window or holds less than a full burst, and is never past the end |
| `TickAhead.AheadMayAcceptMore` | internal/core/node/node.go:541-551 | a schedule that does not fit may still succeed: an ahead queue accepts what a lockstep queue refuses |
| `BufferedLink.GoRemIsEuclidean` | internal/core/link/handler_buffered.go:153-154 | the double-remainder slot index is the Euclidean remainder, for negative arguments too |
| `BufferedLink.PushingFillsTheSlotFirst` | internal/core/link/handler_buffered.go:59-88 | placing pending and new packets one by one fills the slot with the front of the line and keeps the rest in order |
| `BufferedLink.BufferedLinkType.constructor` | internal/core/link/handler_buffered.go:34-50 | empty, and ready to process any first cycle |
| `BufferedLink.BufferedLinkType.AddToSlot` | internal/core/link/handler_buffered.go:162-171 | appends to the addressed slot and touches no other |
| `BufferedLink.BufferedLinkType.ProcessPending` | internal/core/link/handler_buffered.go:59-71 | pending packets are restamped and placed in order |
| `BufferedLink.BufferedLinkType.ProcessIncoming` | internal/core/link/handler_buffered.go:74-88 | new packets are placed in order behind them |
| `BufferedLink.BufferedLinkType.ProcessCycle` | internal/core/link/handler_buffered.go:53-130 | only the addressed slot is ever in use, a ready cycle sends the front burst, an unready one shifts the index, and the next cycle's declaration is whether its slot has room |
| `BufferedLink.LinkIsFifo` | internal/core/link/handler_buffered.go:53-130 | over any run, what left followed by what is held is what arrived |
| `BufferedLink.ReadyCycleSendsTheFront` | internal/core/link/handler_buffered.go:97-119 | a ready cycle sends exactly the first min(bandwidth, length) packets of the queue |
| `BufferedLink.StampsOfDepartures` | internal/core/link/handler_buffered.go:77-104 | a packet leaves with the current stamp if and only if it was not held in the slot |
| `BackPressure.DeclarationsAgree` | internal/core/link/handler_buffered.go:121-147 | the declarations of Process never contradict those of Init |
| `BackPressure.DeclaresSpace` | internal/core/link/handler_buffered.go:121-147 | a cycle is declared ready if and only if it is one of the first latency + 1, or the link has sent in the cycle before, or it holds less than a burst |
| `BackPressure.PotentialStep` | internal/core/link/handler_buffered.go:53-160 | one cycle keeps the bound on packets held plus packets that may still come |
| `BackPressure.BufferIsBounded` | internal/core/link/handler_buffered.go:53-160 | at most (latency + 2) * bandwidth - 1 packets are held, for any downstream decisions |
| `BackPressure.HeldPacketLeavesWithOldStamp` | internal/core/link/handler_buffered.go:97-119 | obedient traffic, for every latency and bandwidth, in which a packet leaves with an old stamp and Receive does not find it |
| `BackPressure.BoundIsReached` | internal/core/link/handler_buffered.go:53-160 | obedient traffic reaches the bound for every latency and bandwidth |
| `Link.Link.constructor` | internal/core/link/handler_buffered.go:140-147 | Init declares the first latency + 1 cycles ready |
| `Link.Link.Tick` | internal/core/link/link.go:188-242 | receives what was sent latency cycles before, processes, declares the next cycle and marks this one done |
| `Link.Link.AdvanceTo` | internal/core/link/link.go:253-272 | for any split into calls the link has sent, declared and marked what the FIFO run says, and never contradicts a declaration |
| `Credits.GrantIsSound` | internal/core/queue/input_queue.go:157-170 | granting keeps the cycles declared ready covered by free slots, and contradicts nothing |
| `Credits.StepIsSound` | internal/core/queue/input_queue.go:120-173 | every tick with legal traffic succeeds and keeps the accounts |
| `Credits.TwoBurstsAreNeededAndEnough` | internal/core/queue/input_queue.go:102-173 | no legal run overflows or contradicts a declaration if and only if the capacity is at least two bursts |
| `Credits.FirstBurstFails` | internal/core/queue/input_queue.go:102-173 | with less room the first burst overflows, or forces a contradiction |
| `Credits.CreditsAreCovered` | internal/core/queue/input_queue.go:157-170 | after any legal run the future cycles declared ready, times the bandwidth, fit in the free slots |
| `Credits.CreditsAreExact` | internal/core/queue/input_queue.go:157-170 | after the arrivals of any legal run a later cycle is declared ready if and only if the free slots hold a burst for it and for each cycle before it |
| `InputQueue.InputQueue.constructor` | internal/core/queue/input_queue.go:72-111 | empty, with cycles 0 and 1 declared ready |
| `InputQueue.InputQueue.FindFreeSlot` | internal/core/queue/input_queue.go:215-222 | the first free slot, or -1 exactly if the queue is full |
| `InputQueue.InputQueue.Store` | internal/core/queue/input_queue.go:130-153 | packets are added until one finds no slot; occupied slots, their packets and their block reasons stay as they are |
| `InputQueue.InputQueue.GrantCredits` | internal/core/queue/input_queue.go:157-170 | the declarations that the accounts of module Credits call for |
| `InputQueue.InputQueue.Tick` | internal/core/queue/input_queue.go:120-173 | length, declarations and outcome are those of module Credits; contents grow by the packets received, and occupied slots stay as they are |
| `InputQueue.InputQueue.PeekPickTo` | internal/core/queue/input_queue.go:273-318 | the oldest available packets, each once, as many as fit, with the slots to free; the queue is unchanged |
| `InputQueue.InputQueue.Free` | internal/core/queue/input_queue.go:321-333 | an occupied slot gives up its packet and its block reasons, all other slots keep theirs, and any other call does nothing |
| `InputQueue.InputQueue.Block` | internal/core/queue/input_queue.go:337-344 | adds a reason to one slot, and keeps packets and space |
| `Progress.StepKeepsInv` | internal/core/node/node.go:457-494 | every step of node or link keeps the channels within the bursts sent since they were drained |
| `Progress.NodeFurthestBehind` | internal/core/node/node.go:457-564 | a node that is furthest behind waits for nobody |
| `Progress.LinkFurthestBehind` | internal/core/link/link.go:188-242 | a link that is furthest behind waits for nobody |
| `Progress.StepDoesWork` | internal/core/node/node.go:568-596 | every step of the network uses up work |
| `Progress.NetworkAdvances` | internal/core/node/node.go:568-596 | for every topology and interleaving, runs are finite and some unfinished component is not blocked |
| `Progress.StuckMeansFinished` | internal/core/node/node.go:568-596 | for every topology and traffic, a network in which nobody can make the move that is due, be it the packet at hand, has reached the target everywhere |
| `Progress.NobodyRunsAhead` | internal/core/link/link.go:188-242 | in every run and at every link: nothing is received before it is marked done, nobody sends for a cycle before the other end has declared it, and no channel overflows |
| `RegisterAllocator.RegisterAllocator.constructor` | internal/nodes/cpu/champsim/register.go:61-80 | all registers free, no mapping |
| `RegisterAllocator.RegisterAllocator.RenameDestRegister` | internal/nodes/cpu/champsim/register.go:96-117 | takes the first free register, maps to it and records the producer |
| `RegisterAllocator.RegisterAllocator.RenameSrcRegister` | internal/nodes/cpu/champsim/register.go:130-156 | the front-end mapping, or a fresh committed and valid one |
| `RegisterAllocator.RegisterAllocator.CompleteDestRegister` | internal/nodes/cpu/champsim/register.go:169-174 | marks the data valid |
| `RegisterAllocator.RegisterAllocator.RetireDestRegister` | internal/nodes/cpu/champsim/register.go:184-202 | commits the mapping and frees the one it replaces |
| `RegisterAllocator.RegisterAllocator.FreeRegister` | internal/nodes/cpu/champsim/register.go:212-227 | clears the record and appends to the free list |
| `RegisterAllocator.RegisterAllocator.CountRegDependencies` | internal/nodes/cpu/champsim/register.go:271-282 | counts the operands whose data is missing |
| `Renaming.NoDependencies` | internal/nodes/cpu/champsim/o3_cpu.go:553-555 | the count is zero if and only if every operand has its data |
| `Renaming.RenameSrcs` | internal/nodes/cpu/champsim/o3_cpu.go:494-537 | the count check leaves enough free registers at every operand, so renaming sources cannot panic, and keeps the mappings there are |
| `Renaming.RenameDests` | internal/nodes/cpu/champsim/o3_cpu.go:539-544 | one free register per destination, so renaming destinations cannot panic |
| `Renaming.RenameDestConserves` | internal/nodes/cpu/champsim/register.go:96-117 | a register moves from the free list into flight |
| `Renaming.RetireDestConserves` | internal/nodes/cpu/champsim/register.go:184-202 | a register moves from flight into the back-end table and the replaced one to the free list |
| `Renaming.RenameSrcsFacts` | internal/nodes/cpu/champsim/o3_cpu.go:533-537 | every source operand gets the mapping of its register; new mappings come off the free list |
| `Renaming.RenameDestsFacts` | internal/nodes/cpu/champsim/o3_cpu.go:539-544 | every destination gets a register of its own, and the front end maps to the newest |
| `Renaming.RetireDestsFacts` | internal/nodes/cpu/champsim/o3_cpu.go:776-780 | the back end maps to the newest destination; registers that become free have their records cleared, and all other records stay |
| `ReorderBuffer.ReorderBuffer.Add` | internal/nodes/cpu/champsim/rob.go:65-77 | appends unless full |
| `ReorderBuffer.ReorderBuffer.Retire` | internal/nodes/cpu/champsim/rob.go:83-103 | removes the oldest instruction if it has completed |
| `ReorderBuffer.ReorderBuffer.PeekAt` | internal/nodes/cpu/champsim/rob.go:182-190 | the i-th oldest instruction, or nil |
| `ReorderBuffer.ReorderBuffer.FindByInstrID` | internal/nodes/cpu/champsim/rob.go:116-131 | the first instruction with the id, or none |
| `ReorderBuffer.ReorderBuffer.Flush` | internal/nodes/cpu/champsim/rob.go:205-241 | truncates after the instruction, full buffer included, and returns how many were dropped |
| `ReorderBuffer.FlushKeepsUpToTheBranch` | internal/nodes/cpu/champsim/rob.go:199-241 | what is kept is the oldest part up to the first instruction with the id, or everything |
| `O3CPU.O3CPU.Retire` | internal/nodes/cpu/champsim/o3_cpu.go:765-808 | the stage loop, as a function of the core |
| `O3CPU.O3CPU.Complete` | internal/nodes/cpu/champsim/o3_cpu.go:568-607 | the stage loop, as a function of the core |
| `O3CPU.O3CPU.Execute` | internal/nodes/cpu/champsim/o3_cpu.go:628-666 | the stage loop, as a function of the core |
| `O3CPU.O3CPU.Schedule` | internal/nodes/cpu/champsim/o3_cpu.go:483-548 | the stage loop with its count check and search bandwidth, as a function of the core; renaming never runs out of registers |
| `O3CPU.O3CPU.Dispatch` | internal/nodes/cpu/champsim/o3_cpu.go:402-447 | the stage loop, as a function of the core |
| `O3CPU.O3CPU.Decode` | internal/nodes/cpu/champsim/o3_cpu.go:355-388 | the stage loop, as a function of the core |
| `O3CPU.O3CPU.Fetch` | internal/nodes/cpu/champsim/o3_cpu.go:297-344 | the stage loop, which a branch ends, as a function of the core |
| `O3CPU.O3CPU.HandleResponse` | internal/nodes/cpu/champsim/o3_cpu.go:869-907 | a response counts for the instruction with the id, if it is in the buffer |
| `O3CPU.O3CPU.Tick` | internal/nodes/cpu/champsim/o3_cpu.go:267-284 | a tick is the run of its stages in order, with the responses in between |
| `O3CPU.O3CPU.HandleBranchMisprediction` | internal/nodes/cpu/champsim/o3_cpu.go:811-821 | empties both queues and truncates the buffer after the branch, if it is there |
| `O3CPU.NothingIsMispredicted` | internal/nodes/cpu/champsim/o3_cpu.go:790-793 | no reachable state has a marked instruction, so the recovery is dead code |
| `O3CPU.RecoveryKeepsTheBuffer` | internal/nodes/cpu/champsim/o3_cpu.go:790-821 | in every reachable state a marked branch would leave all instructions behind it in the buffer, and lose those in the queues |
| `O3CPU.WrongPathSurvives` | internal/nodes/cpu/champsim/o3_cpu.go:790-821 | a run to a state in which it would keep one wrong-path instruction and lose another |
| `Dataflow.LookupAfterRetire` | internal/nodes/cpu/champsim/o3_cpu.go:765-780 | after a retirement every remaining instruction still looks up the same register |
| `Dataflow.DestsAreDistinct` | internal/nodes/cpu/champsim/register.go:96-117 | two instructions in flight never share a destination |
| `DataflowSteps.ScheduleKeepsLinks` | internal/nodes/cpu/champsim/o3_cpu.go:531-548 | scheduling the first unscheduled instruction keeps tables, register file and program order linked |
| `DataflowSteps.CompleteKeepsLinks` | internal/nodes/cpu/champsim/o3_cpu.go:597-607 | completing keeps the links |
| `DataflowSteps.RetireKeepsLinks` | internal/nodes/cpu/champsim/o3_cpu.go:765-780 | retiring keeps the links, and commits the last write in program order |
| `OutOfOrder.ReadyIsFrontier` | internal/nodes/cpu/champsim/o3_cpu.go:488-519 | the scan of schedule meets a ready unscheduled instruction only behind scheduled ones |
| `OutOfOrder.StepKeepsInv` | internal/nodes/cpu/champsim/o3_cpu.go:267-284 | every stage, and every response, keeps the invariant |
| `OutOfOrder.PipelineIsInOrder` | internal/nodes/cpu/champsim/o3_cpu.go:297-447 | retired instructions, reorder buffer and queues are one contiguous run of ids, the k-th retired instruction is k, and scheduled instructions are a prefix |
| `OutOfOrder.RegistersAreConserved` | internal/nodes/cpu/champsim/register.go:96-227 | every physical register is in exactly one place, once |
| `OutOfOrder.LookupFindsTheWriter` | internal/nodes/cpu/champsim/register.go:130-156 | the register an instruction looks up is the one the last earlier writer writes, and is valid exactly when that writer has completed; without a writer it is the committed one |
| `OutOfOrder.RenamingPreservesDataflow` | internal/nodes/cpu/champsim/o3_cpu.go:483-548 | in every reachable state each renamed source is the newest destination of the last earlier writer in program order, or the committed register if there is none, and is not free |
| `OutOfOrder.ProducersCompleteFirst` | internal/nodes/cpu/champsim/o3_cpu.go:628-666 | an instruction has executed only if all its producers have completed |
| `Stages.CompleteStageDoes` | internal/nodes/cpu/champsim/o3_cpu.go:568-607 | the stage completes exactly the first executeWidth instructions that have executed, are due and have all their memory responses |
| `Stages.ExecuteStageDoes` | internal/nodes/cpu/champsim/o3_cpu.go:628-666 | the stage executes exactly the first executeWidth instructions that are scheduled, due and have their operands, and starts their latency |
| `Stages.RetireStageDoes` | internal/nodes/cpu/champsim/o3_cpu.go:765-808 | the completed instructions at the head retire in order, up to retireWidth of them, and nothing else moves |
| `Stages.ScheduleStageDoes` | internal/nodes/cpu/champsim/o3_cpu.go:483-548 | everything due before the stopping point is scheduled, and the stage stops only at the end, at the search width, or for lack of registers |
| `Stages.NeedsIsDemand` | internal/nodes/cpu/champsim/o3_cpu.go:494-519 | the count check asks for one register per unmapped source and per destination |
| `Stages.DispatchStageDoes` | internal/nodes/cpu/champsim/o3_cpu.go:402-447 | a front part of the decode queue goes to the end of the buffer, as long as width, room, due times and load/store queue allow |
| `Stages.DecodeStageDoes` | internal/nodes/cpu/champsim/o3_cpu.go:355-388 | a front part of the fetch queue goes to the end of the decode queue, as long as width, room and due times allow |
| `Stages.FetchStageDoes` | internal/nodes/cpu/champsim/o3_cpu.go:297-344 | the next instructions of the program are fetched, as long as width and room allow and up to the first branch |
| `Stages.ResponseDoes` | internal/nodes/cpu/champsim/o3_cpu.go:869-907 | a response is counted for its instruction if that is in the buffer, and changes nothing else |
| `Stages.OperandsAreReady` | internal/nodes/cpu/champsim/o3_cpu.go:628-666 | after any run a scheduled instruction has its operands if and only if all its producers have completed |
| `Timing.OneStageAtATime` | internal/nodes/cpu/champsim/o3_cpu.go:267-284 | every event leaves an instruction where it is, or moves it on by the stage that takes from there, when it is due, and starts its next latency |
| `Timing.LatenciesAreKept` | internal/nodes/cpu/champsim/o3_cpu.go:297-666 | in every run an instruction is past fetch, decode, dispatch or execution no earlier than the latency after a time at which it had not reached it |
| `Timing.MemoryIsAwaited` | internal/nodes/cpu/champsim/o3_cpu.go:568-607 | in every run an instruction has counted the responses that found it in the buffer, and has completed or retired only with one for each memory operation |
| `Timing.OneStageATick` | internal/nodes/cpu/champsim/o3_cpu.go:267-284 | in one tick every instruction moves on by at most one stage, whatever the latencies |
| `Directory.FullyAssociativeDirectory.EnsureCapacity` | internal/components/directory/fully_associative.go:210-237 | a full table gives up the chosen entry and reports it, another does nothing |
| `Directory.FullyAssociativeDirectory.HandleMESIRequest` | internal/components/directory/fully_associative.go:277-468 | answer, new table and evictions are those of the function, and the table stays within its capacity |
| `Directory.OthersAreTheRest` | internal/components/directory/fully_associative.go:410-414 | the invalidation list is every sharer but the requester |
| `Coherence.ServeOwned` | internal/components/directory/fully_associative.go:326-404 | a request for an exclusive or modified line works on the last value and leaves directory, caches and memory in agreement |
| `Coherence.ServeShared` | internal/components/directory/fully_associative.go:407-464 | the same for a shared line |
| `Coherence.StepKeepsInv` | internal/components/directory/fully_associative.go:277-468 | requests, evictions and silent replacements keep the agreement for all addresses, and loads return the last value |
| `Coherence.SingleWriter` | internal/components/cache/coherence.go:53-91 | after any run at most one cache is exclusive or modified, no other then holds the line, and only listed nodes hold it |
| `Coherence.ReadsAreFresh` | internal/components/cache/coherence.go:53-91 | every load returns, and every valid line holds, the value last written |
| `Coherence.HoldersAreExact` | internal/components/directory/fully_associative.go:277-468 | without silent replacements the directory's holders are exactly the caches that hold the line |
| `Coherence.SuppliersOfData` | internal/components/directory/fully_associative.go:425-458 | after any run, the answer names a supplier of data if and only if the line has no entry in use, or one with another owner who still holds it |
| `Coherence.ThirdReaderHasNoSupplier` | internal/components/directory/fully_associative.go:448-458 | after two loads of a line, a third node is sent to the first sharer, which has no data for it |
| `Coherence.FormerOwnerHasNoData` | internal/components/directory/fully_associative.go:326-404 | after a load and a replacement, neither another node nor the owner itself is sent to data |
| `Coherence.AnswersFollowTheList` | internal/components/directory/fully_associative.go:277-468 | after any run: memory is needed exactly if nobody is listed, the forwarder is the node listed longest unless the requester is listed, a write invalidates everybody else in the order of the list, exclusive access goes to writers and first requesters, and how the list goes on |
| `Coherence.GrantsFollowTheEntry` | internal/components/directory/fully_associative.go:277-468 | after any run: the state granted is that of the entry, and which one it is |
| `Coherence.GrantedAlone` | internal/components/cache/coherence.go:53-91 | a requester that is granted exclusive access is afterwards the only one to hold the line |
| `Coherence.EntriesStay` | internal/components/directory/fully_associative.go:210-237 | after any run: an entry leaves the table exactly if a new line finds the table full and the choice falls on it; it is reported, and its line is then in no cache |
| `Coherence.NobodyOwns` | internal/components/cache/coherence.go:53-91 | after any run no line is in the owned state |
| `AddressMapping.SizeFromBits` | internal/capabilities/memory/dram/address_mapping.go:76-83 | bits recover the size exactly for powers of two |
| `AddressMapping.FieldsGiveTheAddressBack` | internal/capabilities/memory/dram/address_mapping.go:119-157 | the fields together determine the address |
| `AddressMapping.BankIndexInRange` | internal/capabilities/memory/dram/address_mapping.go:166-174 | every address has a bank |
| `AddressMapping.BankIndexIsInjective` | internal/capabilities/memory/dram/address_mapping.go:166-174 | addresses share a bank entry only if rank, bank group and bank agree |
| `AddressMapping.MappingFollowsLayout` | internal/capabilities/memory/dram/address_mapping.go:119-157 | an address is laid out from given fields, in the documented order, if and only if these are the fields the mapping finds |
| `AddressMapping.BankIndexFollowsLayout` | internal/capabilities/memory/dram/address_mapping.go:166-174 | the bank index is laid out from bank, bank group and rank |
| `Channel.NextRequestIsEarliest` | internal/capabilities/memory/dram/operate.go:95-112 | the data bus goes to the request that has been ready longest, first bank first |
| `Channel.BestIsBest` | internal/capabilities/memory/dram/schedule.go:17-66 | the packet chosen has the highest priority of all that can be scheduled |
| `Channel.ChoiceWaitedLongest` | internal/capabilities/memory/dram/schedule.go:17-66 | a packet is chosen if and only if it can be scheduled, is due within 100 cycles and has waited longest, a row hit counting 1000 cycles more, the front of the queue first |
| `Channel.RowHitsFirst` | internal/capabilities/memory/dram/schedule.go:17-66 | a row miss is chosen if and only if every schedulable row hit is more than 1000 cycles younger, or exactly 1000 and behind it in the queue |
| `Channel.OldMissIsChosen` | internal/capabilities/memory/dram/schedule.go:36-57 | for every mapping, a state in which a schedulable row hit is passed over |
| `DRAMChannel.DRAMChannel.AddRequest` | internal/capabilities/memory/dram/dram_channel.go:100-132 | accepts exactly if the queue of its kind has room |
| `DRAMChannel.DRAMChannel.FinishDBusRequest` | internal/capabilities/memory/dram/operate.go:49-75 | the packet that is due calls back, and leaves bank, bus and queue |
| `DRAMChannel.DRAMChannel.RemoveFromQueue` | internal/capabilities/memory/dram/schedule.go:148-164 | removes one occurrence, from the read queue if it is there |
| `DRAMChannel.DRAMChannel.SwapWriteMode` | internal/capabilities/memory/dram/operate.go:134-194 | the mode changes exactly at the marks, and every bank but the one on the bus gives its packet back |
| `DRAMChannel.DRAMChannel.PopulateDBus` | internal/capabilities/memory/dram/operate.go:82-125 | puts the earliest ready request on a free bus |
| `DRAMChannel.DRAMChannel.SchedulePacket` | internal/capabilities/memory/dram/schedule.go:17-66 | returns the best packet of the current mode |
| `DRAMChannel.DRAMChannel.ServicePacket` | internal/capabilities/memory/dram/schedule.go:76-145 | starts a ready packet on a free bank with the latency of its row |
| `DRAMChannel.DRAMChannel.Tick` | internal/capabilities/memory/dram/operate.go:19-39 | the steps of a cycle in their order |
| `Consistency.FinishKeepsInv` | internal/capabilities/memory/dram/operate.go:49-75 | finishing removes exactly one packet and keeps queues and banks consistent |
| `Consistency.SwapKeepsInv` | internal/capabilities/memory/dram/operate.go:134-194 | so does a change of mode |
| `Consistency.StepKeepsInv` | internal/capabilities/memory/dram/operate.go:19-39 | every tick and request keeps conservation and bank consistency |
| `Consistency.CallbacksHappenOnce` | internal/capabilities/memory/dram/operate.go:49-75 | an accepted packet is queued or completed, once, never both |
| `Consistency.BanksAreConsistent` | internal/capabilities/memory/dram/schedule.go:76-145 | a queued packet is scheduled if and only if the bank of its address, and no other, holds it; busy banks off the bus serve the current mode |
| `Drains.NoSecondSwitch` | internal/capabilities/memory/dram/operate.go:134-159 | with unchanged queues a change of mode is not followed by another |
| `Drains.TickGetsCloser` | internal/capabilities/memory/dram/operate.go:19-194 | every tick with work to do lowers a lexicographic measure |
| `Drains.ChannelDrains` | internal/capabilities/memory/dram/operate.go:19-194 | left alone, the channel empties its queues and has then completed every accepted packet |
| `Drains.DrainsIfAndOnlyIf` | internal/capabilities/memory/dram/operate.go:134-159 | it always drains if and only if the write queue has two places or it takes no reads |
| `ServiceTimes.ServiceTakesItsTime` | internal/capabilities/memory/dram/schedule.go:76-145 | after any run a packet that is given to its bank is ready after tCAS if the bank served the same row last, after tRCD + tCAS if no row is open, after tRP + tRCD + tCAS if another is |
| `DataBus.BurstTakesEightCycles` | internal/capabilities/memory/dram/operate.go:82-125 | after any run a packet that gets the bus keeps it and is called back 8 cycles later, whatever happens |
| `DataBus.BusGoesToTheEarliest` | internal/capabilities/memory/dram/operate.go:82-125 | after any run the bus goes to the bank that has been ready longest, and is idle only while it rests or nobody is ready |
| `DataBus.ModeChangesAtTheMarks` | internal/capabilities/memory/dram/operate.go:134-159 | after any run the mode changes in a tick if and only if the queues have reached the marks, 7/8 and 6/8 of the write queue |
| `DataBus.NobodyTakesAtTheChange` | internal/capabilities/memory/dram/operate.go:19-39 | no bank gets the bus in the tick of a change |
| `DataBus.BusTurnsAround` | internal/capabilities/memory/dram/operate.go:160-194 | and none does until tRAS cycles after the change, or after the burst under way |
| `DataBus.ChangeOfModeGivesBack` | internal/capabilities/memory/dram/operate.go:160-194 | a packet in service waits again, as if it had just come, exactly on a change of mode, and unless it is on the bus |
| `Waiting.LongestWaitingBegins` | internal/capabilities/memory/dram/schedule.go:17-145 | in a tick the packet that has waited longest begins if it is due, and no other |
| `Waiting.QueuesKeepTheirOrder` | internal/capabilities/memory/dram/dram_channel.go:100-132 | in every run a queue holds exactly the accepted packets of its kind that have not been called back, in the order they came |
| `Waiting.AnswerTellsTheTruth` | internal/capabilities/memory/dram/dram_channel.go:100-132 | a request is answered yes if and only if its packet is queued, which it is if there is room |
| `Waiting.WaitingIsFromArrival` | internal/capabilities/memory/dram/dram_channel.go:100-132 | a packet waits from the cycle it came in or the time it came with, until it is given back |
| `Recency.LruIsTopOfStack` | internal/components/cache/set_associative.go:89-109 | the blocks held under LRU are the top of one stack, whatever the number of ways |
| `Recency.MoreWaysMoreHits` | internal/components/cache/set_associative.go:89-109 | on any trace, hits never decrease with the number of ways |
| `SetAssociative.LruWayIsSmallest` | internal/components/cache/set_associative.go:91-103 | findLRUWay returns the first of the smallest counters |
| `SetAssociative.UseKnownWay` | internal/components/cache/set_associative.go:375-390 | a hit moves its block to the front of the recency order |
| `SetAssociative.UseNewWay` | internal/components/cache/set_associative.go:429-452 | a fill puts its block in front, in an empty way or the way of the least recent block |
| `CoreCache.SetAssociativeCache.Access` | internal/components/cache/set_associative.go:351-407 | lookup, state change and clock, as a function of the ways |
| `CoreCache.SetAssociativeCache.Fill` | internal/components/cache/set_associative.go:410-455 | refill or replacement, evicted address and write-back, as a function of the ways |
| `CacheRuns.AccessRefines` | internal/components/cache/set_associative.go:351-407 | an access hits if and only if its block is on the recency list, and then moves it to the front |
| `CacheRuns.AddressParts` | internal/components/cache/set_associative.go:66-75 | offset, set and tag of an address |
| `CacheRuns.FillRefines` | internal/components/cache/set_associative.go:410-455 | a fill puts its block in front, and drops the last block of a full list only for a block that was not on it |
| `CacheRuns.CountersImplementLru` | internal/components/cache/set_associative.go:351-455 | after any run of accesses and fills, in any order, each set holds the blocks of its recency list in the order of its counters |
| `CacheRuns.PresentMeansRecent` | internal/components/cache/set_associative.go:66-88 | after any such run a block is found if and only if it is on the recency list |
| `CacheRuns.RunKeepsStates` | internal/components/cache/set_associative.go:381-447 | after any such run every valid line is in the state it was last filled in or written to |
| `CacheRuns.EvictionsAreLeastRecent` | internal/components/cache/set_associative.go:410-470 | after any such run a fill evicts the least recently used block of a full set, and has it written back if and only if it was modified last |
| `StandaloneRuns.StandaloneIsLru` | internal/capabilities/cache/set_associative_cache.go:318-321 | with every miss filled at once, the recency lists are those of plain LRU |
| `StandaloneRuns.MoreWaysHoldMore` | internal/capabilities/cache/set_associative_cache.go:196-373 | what a standalone cache holds, one with more ways holds too |
| `StandaloneRuns.MoreWaysHitMore` | internal/capabilities/cache/set_associative_cache.go:196-373 | and it has at least as many hits |
| `MissHandling.SetAssociativeCache.Access` | internal/capabilities/cache/set_associative_cache.go:196-244 | access and miss, with a lower level, in standalone mode or with neither, as a function of cache and queue |
| `MissHandling.SetAssociativeCache.HandleMiss` | internal/capabilities/cache/set_associative_cache.go:252-327 | a miss joins its block's entry, is turned away by a full queue, or gets an entry and is sent on or filled |
| `MissHandling.SetAssociativeCache.HandleFill` | internal/capabilities/cache/set_associative_cache.go:338-373 | the block's entry leaves the queue and the block is filled, whether anybody waited or not |
| `MissHandling.SetAssociativeCache.SetLowerLevel` | internal/capabilities/cache/set_associative_cache.go:112-122 | a lower level ends standalone mode |
| `MissRuns.RunIsLru` | internal/capabilities/cache/set_associative_cache.go:196-373 | in every mode and for every interleaving of requests and responses, the cache follows the recency lists of its accesses and fills |
| `MissRuns.MissesWait` | internal/capabilities/cache/set_associative_cache.go:252-327 | a miss is turned away exactly if the queue is full and nobody waits for its block; otherwise it waits in the entry it is told |
| `MissRuns.WaitersAreReleasedOnce` | internal/capabilities/cache/set_associative_cache.go:252-373 | in every run there is one entry per block within the bound, what is waited for is absent, and each instruction that began to wait has been released once or still waits |
| `MissRuns.LowerLevelIsAskedOnce` | internal/capabilities/cache/set_associative_cache.go:263-317 | misses are merged: the lower level has been asked once per response that found a waiter, and once more while somebody waits |
| `MissRuns.RepliesAreOnTime` | internal/capabilities/cache/set_associative_cache.go:196-301 | in every run a hit is ready hitLatency later with no entry, the first miss of a block fillLatency later, whoever joins it at that same cycle, and who is turned away is told hitLatency + fillLatency |
| `MissRuns.StandaloneMode` | internal/capabilities/cache/set_associative_cache.go:318-321 | in standalone mode the queue is empty between requests, and the cache is that of module StandaloneRuns |
| `MSHR.MSHRQueue.Find` | internal/capabilities/cache/mshr.go:97-104 | the first entry of the block |
| `MSHR.MSHRQueue.Allocate` | internal/capabilities/cache/mshr.go:111-118 | appends unless full |
| `MSHR.MSHRQueue.Merge` | internal/capabilities/cache/mshr.go:123-138 | adds the instruction to the entry, once |
| `MSHR.MSHRQueue.Remove` | internal/capabilities/cache/mshr.go:143-154 | removes the entry at a valid index |
| `MSHR.MSHRQueue.RemoveByAddress` | internal/capabilities/cache/mshr.go:159-166 | removes and returns the entry of the block |
| `MSHR.MissIsRecorded` | internal/capabilities/cache/set_associative_cache.go:263-301 | a miss waits with its block and no other, entries stay one per block, and the size is bounded |
| `MSHR.FillReleasesAll` | internal/capabilities/cache/set_associative_cache.go:345-370 | a fill hands out everyone who waits for its block, and no one else |
| `TxnManager.TxnManager.Start` | internal/dataflow/transaction/manager.go:56-96 | a new id enters the active table |
| `TxnManager.TxnManager.HandleYieldCommand` | internal/dataflow/transaction/manager.go:267-402 | what each command of a local transaction does to the tables, and what goes out |
| `TxnManager.TxnManager.HandleMigratedYieldCommand` | internal/dataflow/transaction/manager.go:486-525 | the same for a migrated transaction |
| `TxnManager.TxnManager.HandleMigrationOut` | internal/dataflow/transaction/manager.go:528-547 | the transaction leaves the table as a request |
| `TxnManager.TxnManager.HandleRequest` | internal/dataflow/transaction/manager.go:428-464 | the transaction enters the migrated table and is resumed |
| `TokenPassing.StepKeepsInv` | internal/dataflow/transaction/manager.go:131-547 | every step of goroutines, managers and network keeps one holder per transaction |
| `TokenPassing.OnePlaceAtATime` | internal/dataflow/transaction/manager.go:267-547 | in every run a transaction is in at most one active table, migrated table or request |
| `TokenPassing.CommandsAreHandledInOrder` | internal/dataflow/transaction/context.go:43-103 | commands are handled once, in issue order, by the manager of the node whose context issued them |
| `TokenPassing.ResumesAreNeverDropped` | internal/dataflow/transaction/manager.go:370-373 | a resume channel never holds more than one value |
| `TokenPassing.MigrationIsNeverLost` | internal/dataflow/transaction/context.go:172-202 | MigrateTo receives only the result of its target, and a handled migration is on its way or has arrived |
| `TokenPassing.BlockedIsAnswered` | internal/dataflow/transaction/manager.go:267-525 | in every run a blocked goroutine has its command still to be handled, or the answer that belongs to it, or is known as waiting for a message, or is on its way |
| `TokenPassing.MessagesReachWaiters` | internal/dataflow/transaction/manager.go:164-236 | a message reaches whoever waits for it on the node, once, and changes nothing for others |
| `TokenPassing.HeldUntilItsEnd` | internal/dataflow/transaction/manager.go:99-125 | a transaction is held if and only if it has not ended: at home by returning, away from home by a completion handled there |
| `TokenPassing.CommandsAreRefusedAtTen` | internal/dataflow/transaction/context.go:43-103 | a command is refused if and only if ten others wait |
| `TokenPassing.IdsAreConsecutive` | internal/dataflow/transaction/manager.go:56-66 | the transactions started on a node are numbered from 1 without gaps |

## Left out

- Link and queue ends that are not connected: every port has both ends.
- The branch of `BufferedLinkType.Process` in which `TrySend` refuses part of a slot: a decision that `IsReady` has found ready stays ready.
- The bufferless link, routers and the coherence tree.
- End-to-end delivery of packets that a buffered link has held back; see `BufferedLink.StampsOfDepartures`.
- Freedom from deadlock with tick-ahead: module Progress ticks each output queue in its current cycle only.
- Link latencies of 0, and bursts that do not fit the port channel, in module Progress.
- Progress.StepKeepsInv: steps are counted in packets, so handlers, packet contents and overflow errors of queues play no part in it.
- `InputQueue.Pick`, which frees what it returns; and which of two packets of the same cycle `PeekPickTo` puts first, since `sort.Slice` leaves that open.
- Node handlers are a schedule of injections, fixed before the run.
- Instructions are values in the queue that holds them; that the code shares one pointer between a queue and a local variable shows only in `ReorderBuffer.Put`.
- TickAhead.BaseNode.AdvanceTo: input queues are not ticked in it; module Progress has them.
- PortDelivery.Port.TrySend: the answer of the blocking `IsReady` is a parameter; module ReadyWakeup has the blocking.
- BufferedLink.BufferedLinkType.ProcessCycle: both ends are connected, and no packet of a slot is refused.
- ReadyBoard.ComponentSync.IsReadyNonBlocking: both looks are one query; module ReadyWakeup has them as two steps.
- ReorderBuffer.ReorderBuffer.constructor: a buffer of size 0, which is always full, is not modelled.
- O3CPU.O3CPU.Retire: nothing is removed from the load/store queue.
- O3CPU.O3CPU.Execute: the cache accesses of a memory operation are left out; its response is an event.
- O3CPU.O3CPU.Dispatch: whether the load/store queue has room for an instruction is an input.
- O3CPU.O3CPU.HandleResponse: a response is counted without a lookup in the load/store queue.
- TxnManager.TxnManager.HandleYieldCommand: the send queue, operations and the table by address are left out.
- TxnManager.TxnManager.HandleMigratedYieldCommand: so is the send queue here.
- The load/store queue is a set of instructions that find it full, and memory responses are events; the decoded instruction buffer, prefetching and statistics.
- Setting the mark of a mispredicted branch, which no stage does.
- Physical register ids are not limited to 16 bits.
- The MOESI helpers, the fully associative cache, the second coherence controller with its asynchronous acknowledgements, and stores that a cache makes to a shared line without asking the directory.
- Memory answers a request when neither the requester nor the forwarding cache has data, and a recalled line is written back if it is modified: the directory leaves both to its callers.
- Refresh, collision checks, statistics and `SetCycle` of the DRAM channel; packets are ids with a record, not pointers.
- LRU with `Invalidate` or snoops in between: `findLRUWay` does not prefer empty ways.
- The lower level of the cache is an environment that may answer any block at any time; write-backs are not sent to it, as in the code.
- CacheRuns.CountersImplementLru: fills in the invalid state, which nobody makes.
- Timeouts and cancelled contexts of transactions, results passed to `Complete`, operations and protocol messages; a message that matches several waiting transactions is one routing step for each.
- TokenPassing.CommandsAreHandledInOrder: commands that are still in the channel when the transaction function returns may never be handled, as in the code.
- Wrap-around of 64-bit cycles, clocks and counters.
- Tracing, monitors, visualisation, profiling and file input.
