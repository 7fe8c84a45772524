/** The pipeline stages of the out-of-order core (internal/nodes/cpu/champsim/o3_cpu.go) as
    functions on its state: the reorder buffer and the two queues as sequences, oldest
    instruction first. */
module Pipeline {
  import opened Renaming

  /** What the trace says about an instruction; operands are never the invalid register,
      because the trace constructors leave those out. */
  datatype TraceInstr = TraceInstr(srcs: seq<Arch>, dests: seq<Arch>, isBranch: bool, memOps: nat)

  /** `srcs` and `dests` are overwritten in place by renaming; `trace` keeps the originals.
      `mispredicted` is the mark of a mispredicted branch, which the code reads and never
      sets. */
  datatype Instr = Instr(
    id: nat, trace: TraceInstr, srcs: seq<int>, dests: seq<int>, readyTime: nat,
    scheduled: bool, executed: bool, completed: bool, memOpsDone: nat, mispredicted: bool)

  datatype Config = Config(
    fetchWidth: int, decodeWidth: int, dispatchWidth: int, scheduleWidth: int, executeWidth: int, retireWidth: int,
    fetchQueueSize: int, decodeQueueSize: int, robSize: int,
    fetchLatency: nat, decodeLatency: nat, dispatchLatency: nat, executeLatency: nat)

  /** `retired` is history: the retired instructions, as they left the buffer. */
  datatype Core = Core(
    rob: seq<Instr>, decodeQueue: seq<Instr>, fetchQueue: seq<Instr>,
    regs: Regs, cycle: nat, counter: nat, retired: seq<Instr>)

  function InitialCore(numPhysical: nat): Core {
    Core([], [], [], Renaming.Initial(numPhysical), 0, 0, [])
  }

  // ------------------------------------------------------------------ retire

  predicate CanRetire(c: Core) {
    c.rob != [] && c.rob[0].completed
  }

  /** The head leaves the buffer, and its destinations are committed. */
  function RetireHead(c: Core): (c': Core)
    requires c.regs.Ok() && CanRetire(c)
    ensures c'.regs.Ok()
  {
    c.(rob := c.rob[1..], regs := RetireDests(c.regs, c.rob[0].dests), retired := c.retired + [c.rob[0]])
  }

  /** What Flush keeps: everything up to the instruction, or all if it is not there. */
  function KeptBy(s: seq<Instr>, id: nat): seq<Instr> {
    var i := Find(s, id);
    if i < |s| then s[..i + 1] else s
  }

  /** handleBranchMisprediction, after the branch has retired. */
  function Recover(c: Core, branch: nat): Core {
    c.(fetchQueue := [], decodeQueue := [], rob := KeptBy(c.rob, branch))
  }

  /** One round of the loop of retire. */
  function RetireOne(c: Core): (c': Core)
    requires c.regs.Ok() && CanRetire(c)
    ensures c'.regs.Ok()
  {
    var x := c.rob[0];
    if x.trace.isBranch && x.mispredicted then Recover(RetireHead(c), x.id) else RetireHead(c)
  }

  function Retire(k: Config, c: Core, count: int): (c': Core)
    requires c.regs.Ok()
    ensures c'.regs.Ok()
    decreases k.retireWidth - count
  {
    if count < k.retireWidth && CanRetire(c) then Retire(k, RetireOne(c), count + 1) else c
  }

  // ------------------------------------------------------------------ complete

  predicate CanComplete(c: Core, i: nat)
    requires i < |c.rob|
  {
    var x := c.rob[i];
    x.executed && !x.completed && x.readyTime <= c.cycle && x.trace.memOps <= x.memOpsDone
  }

  function CompleteOne(c: Core, i: nat): Core
    requires c.regs.Ok() && i < |c.rob|
  {
    c.(rob := c.rob[i := c.rob[i].(completed := true)], regs := CompleteDests(c.regs, c.rob[i].dests))
  }

  function Complete(k: Config, c: Core, i: nat, count: int): (c': Core)
    requires c.regs.Ok()
    ensures c'.regs.Ok()
    decreases |c.rob| - i
  {
    if i < |c.rob| && count < k.executeWidth then
      if CanComplete(c, i) then Complete(k, CompleteOne(c, i), i + 1, count + 1)
      else Complete(k, c, i + 1, count)
    else c
  }

  // ------------------------------------------------------------------ execute

  predicate CanExecute(c: Core, i: nat)
    requires i < |c.rob|
  {
    var x := c.rob[i];
    x.scheduled && !x.executed && x.readyTime <= c.cycle && Dependencies(c.regs, x.srcs) == 0
  }

  function ExecuteOne(k: Config, c: Core, i: nat): Core
    requires i < |c.rob|
  {
    c.(rob := c.rob[i := c.rob[i].(executed := true, readyTime := c.cycle + k.executeLatency)])
  }

  function Execute(k: Config, c: Core, i: nat, count: int): (c': Core)
    ensures c'.regs == c.regs
    decreases |c.rob| - i
  {
    if i < |c.rob| && count < k.executeWidth then
      if CanExecute(c, i) then Execute(k, ExecuteOne(k, c, i), i + 1, count + 1)
      else Execute(k, c, i + 1, count)
    else c
  }

  // ------------------------------------------------------------------ schedule

  /** Free registers that scheduling the instruction may take. Operands are looked up as
      they stand: those of an instruction that was scheduled before are physical ids. */
  function Needs(r: Regs, x: Instr): nat
    requires r.Ok()
  {
    Unallocated(r, x.srcs) + CountValid(x.dests)
  }

  predicate CanSchedule(c: Core, i: nat)
    requires i < |c.rob|
  {
    !c.rob[i].scheduled && c.rob[i].readyTime <= c.cycle
  }

  /** doScheduling: the count check is all that renaming needs not to run out of
      registers. */
  function ScheduleOne(c: Core, i: nat): (c': Core)
    requires c.regs.Ok() && i < |c.rob| && Needs(c.regs, c.rob[i]) <= |c.regs.free|
    ensures c'.regs.Ok()
  {
    var x := c.rob[i];
    var (r, srcs) := RenameSrcs(c.regs, x.srcs);
    var (r', dests) := RenameDests(r, x.dests, x.id);
    c.(rob := c.rob[i := x.(srcs := srcs, dests := dests, scheduled := true)], regs := r')
  }

  function Schedule(k: Config, c: Core, i: nat, searched: int): (c': Core)
    requires c.regs.Ok()
    ensures c'.regs.Ok()
    decreases |c.rob| - i
  {
    if i < |c.rob| && searched < k.scheduleWidth && Needs(c.regs, c.rob[i]) <= |c.regs.free| then
      var c' := if CanSchedule(c, i) then ScheduleOne(c, i) else c;
      Schedule(k, c', i + 1, if c.rob[i].executed then searched else searched + 1)
    else c
  }

  // ------------------------------------------------------------------ dispatch

  /** `lsqFull` says for which instructions the load/store queue has no room. */
  predicate CanDispatch(k: Config, c: Core, lsqFull: set<nat>) {
    && c.decodeQueue != [] && c.decodeQueue[0].readyTime <= c.cycle
    && |c.rob| < k.robSize && c.decodeQueue[0].id !in lsqFull
  }

  function DispatchOne(k: Config, c: Core): Core
    requires c.decodeQueue != []
  {
    c.(rob := c.rob + [c.decodeQueue[0].(readyTime := c.cycle + k.dispatchLatency)],
       decodeQueue := c.decodeQueue[1..])
  }

  function Dispatch(k: Config, c: Core, lsqFull: set<nat>, count: int): (c': Core)
    ensures c'.regs == c.regs
    decreases k.dispatchWidth - count
  {
    if count < k.dispatchWidth && CanDispatch(k, c, lsqFull)
    then Dispatch(k, DispatchOne(k, c), lsqFull, count + 1)
    else c
  }

  // ------------------------------------------------------------------ decode and fetch

  predicate CanDecode(k: Config, c: Core) {
    && |c.decodeQueue| < k.decodeQueueSize
    && c.fetchQueue != [] && c.fetchQueue[0].readyTime <= c.cycle
  }

  function DecodeOne(k: Config, c: Core): Core
    requires c.fetchQueue != []
  {
    c.(decodeQueue := c.decodeQueue + [c.fetchQueue[0].(readyTime := c.cycle + k.decodeLatency)],
       fetchQueue := c.fetchQueue[1..])
  }

  function Decode(k: Config, c: Core, count: int): (c': Core)
    ensures c'.regs == c.regs
    decreases k.decodeWidth - count
  {
    if count < k.decodeWidth && CanDecode(k, c) then Decode(k, DecodeOne(k, c), count + 1) else c
  }

  /** The instruction that the trace reader returns for counter value `id`. */
  function Read(k: Config, t: TraceInstr, id: nat, cycle: nat): Instr {
    Instr(id, t, t.srcs, t.dests, cycle + k.fetchLatency, false, false, false, 0, false)
  }

  predicate CanFetch(k: Config, c: Core, program: seq<TraceInstr>) {
    |c.fetchQueue| < k.fetchQueueSize && c.counter < |program|
  }

  function FetchOne(k: Config, c: Core, program: seq<TraceInstr>): Core
    requires c.counter < |program|
  {
    c.(fetchQueue := c.fetchQueue + [Read(k, program[c.counter], c.counter, c.cycle)], counter := c.counter + 1)
  }

  /** The loop of fetch, which a branch ends. */
  function FetchLoop(k: Config, c: Core, program: seq<TraceInstr>, count: int): (c': Core)
    ensures c'.regs == c.regs
    decreases k.fetchWidth - count
  {
    if count < k.fetchWidth && CanFetch(k, c, program) then
      if program[c.counter].isBranch then FetchOne(k, c, program)
      else FetchLoop(k, FetchOne(k, c, program), program, count + 1)
    else c
  }

  function Fetch(k: Config, c: Core, program: seq<TraceInstr>): Core {
    if |c.fetchQueue| >= k.fetchQueueSize || |c.rob| >= k.robSize then c
    else FetchLoop(k, c, program, 0)
  }

  // ------------------------------------------------------------------ memory responses

  /** The position of the first instruction with this id. */
  function Find(rob: seq<Instr>, id: nat): (i: nat)
    ensures i <= |rob|
    ensures i < |rob| ==> rob[i].id == id
    ensures forall j :: 0 <= j < i ==> rob[j].id != id
    decreases |rob|
  {
    if rob == [] || rob[0].id == id then 0 else 1 + Find(rob[1..], id)
  }

  /** A load or store of instruction `id` has come back. */
  function Respond(c: Core, id: nat): Core {
    var i := Find(c.rob, id);
    if i == |c.rob| then c else c.(rob := c.rob[i := c.rob[i].(memOpsDone := c.rob[i].memOpsDone + 1)])
  }

  // ------------------------------------------------------------------ runs

  /** One stage of Tick, or something that happens between stages. */
  datatype Event =
    | NextCycle
    | RetireStage
    | CompleteStage
    | ExecuteStage
    | ScheduleStage
    | DispatchStage(lsqFull: set<nat>)
    | DecodeStage
    | FetchStage
    | Response(id: nat)

  function Step(k: Config, program: seq<TraceInstr>, c: Core, e: Event): (c': Core)
    requires c.regs.Ok()
    ensures c'.regs.Ok()
  {
    match e
    case NextCycle => c.(cycle := c.cycle + 1)
    case RetireStage => Retire(k, c, 0)
    case CompleteStage => Complete(k, c, 0, 0)
    case ExecuteStage => Execute(k, c, 0, 0)
    case ScheduleStage => Schedule(k, c, 0, 0)
    case DispatchStage(lsqFull) => Dispatch(k, c, lsqFull, 0)
    case DecodeStage => Decode(k, c, 0)
    case FetchStage => Fetch(k, c, program)
    case Response(id) => Respond(c, id)
  }

  function Run(k: Config, program: seq<TraceInstr>, c: Core, events: seq<Event>): (c': Core)
    requires c.regs.Ok()
    ensures c'.regs.Ok()
    decreases |events|
  {
    if events == [] then c else Run(k, program, Step(k, program, c, events[0]), events[1..])
  }

  /** One call of Tick; `responses` arrive while memory operations are processed, and
      `immediate` ones, of the standalone mode, while instructions execute. */
  function TickEvents(lsqFull: set<nat>, responses: seq<Event>, immediate: seq<Event>): seq<Event> {
    [NextCycle, RetireStage] + responses + [CompleteStage, ExecuteStage] + immediate
    + [ScheduleStage, DispatchStage(lsqFull), DecodeStage, FetchStage]
  }
}
