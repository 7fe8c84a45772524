/** The out-of-order core as the code has it (internal/nodes/cpu/champsim/o3_cpu.go): each
    stage loops over the reorder buffer or a queue and updates instructions, tables and
    queues in place. Every stage is proved to be the function of module Pipeline on the
    state of the core. */
module O3CPU {
  import opened Renaming
  import opened Pipeline
  import opened Dataflow
  import opened OutOfOrder
  import RA = RegisterAllocator
  import RB = ReorderBuffer

  class O3CPU {
    const config: Config
    const program: seq<TraceInstr>
    const rob: RB.ReorderBuffer
    const regAlloc: RA.RegisterAllocator
    var fetchQueue: seq<Instr>
    var decodeQueue: seq<Instr>
    var currentCycle: nat
    var instrCounter: nat
    ghost var retired: seq<Instr>

    ghost function Repr(): set<object> {
      {this, rob, rob.buffer, regAlloc, regAlloc.frontendRAT, regAlloc.backendRAT, regAlloc.physicalRegisterFile}
    }

    ghost predicate Valid()
      reads Repr()
    {
      rob.Valid() && regAlloc.Valid() && rob.maxSize == config.robSize
    }

    ghost function State(): Core
      reads Repr()
    {
      Core(rob.contents, decodeQueue, fetchQueue, regAlloc.State(), currentCycle, instrCounter, retired)
    }

    constructor (config: Config, numPhysical: nat, program: seq<TraceInstr>)
      requires config.robSize > 0
      ensures Valid() && this.config == config && this.program == program
      ensures State() == InitialCore(numPhysical)
    {
      this.config, this.program := config, program;
      rob := new RB.ReorderBuffer(config.robSize);
      regAlloc := new RA.RegisterAllocator(numPhysical);
      fetchQueue, decodeQueue, currentCycle, instrCounter, retired := [], [], 0, 0, [];
    }

    // ------------------------------------------------------------------ retire

    method Retire()
      requires Valid()
      modifies Repr()
      ensures Valid() && State() == Pipeline.Retire(config, old(State()), 0)
    {
      var retireCount := 0;
      while retireCount < config.retireWidth
        invariant Valid()
        invariant Pipeline.Retire(config, State(), retireCount) == Pipeline.Retire(config, old(State()), 0)
        decreases config.retireWidth - retireCount
      {
        var any := RetireHead();
        if !any {
          break;
        }
        retireCount := retireCount + 1;
      }
    }

    method RetireHead() returns (any: bool)
      requires Valid()
      modifies Repr()
      ensures Valid() && any == CanRetire(old(State()))
      ensures State() == if any then RetireOne(old(State())) else old(State())
    {
      var slot := rob.Retire();
      if slot.Nil? {
        return false;
      }
      regAlloc.RetireDestinations(slot.instr.dests);
      retired := retired + [slot.instr];
      if slot.instr.trace.isBranch && slot.instr.mispredicted {
        HandleBranchMisprediction(slot.instr.id);
      }
      return true;
    }

    method HandleBranchMisprediction(branch: nat)
      requires Valid()
      modifies Repr()
      ensures Valid() && State() == Recover(old(State()), branch)
    {
      fetchQueue := [];
      decodeQueue := [];
      var flushed := rob.Flush(branch);
    }

    // ------------------------------------------------------------------ complete

    /** completeInflightInstruction. */
    method Complete()
      requires Valid()
      modifies Repr()
      ensures Valid() && State() == Pipeline.Complete(config, old(State()), 0, 0)
    {
      var completeCount, i := 0, 0;
      while i < rob.size && completeCount < config.executeWidth
        invariant Valid() && 0 <= i <= |rob.contents|
        invariant Pipeline.Complete(config, State(), i, completeCount) == Pipeline.Complete(config, old(State()), 0, 0)
        decreases |rob.contents| - i
      {
        rob.SizeIsLength();
        var x := rob.PeekAt(i).instr;
        if x.executed && !x.completed && currentCycle >= x.readyTime && x.memOpsDone >= x.trace.memOps {
          DoCompleteExecution(i, x);
          completeCount := completeCount + 1;
        }
        i := i + 1;
      }
      rob.SizeIsLength();
    }

    method DoCompleteExecution(i: nat, x: Instr)
      requires Valid() && i < |rob.contents| && rob.contents[i] == x
      modifies Repr()
      ensures Valid() && State() == CompleteOne(old(State()), i)
    {
      regAlloc.CompleteDestinations(x.dests);
      rob.Put(i, x.(completed := true));
    }

    // ------------------------------------------------------------------ execute

    method Execute()
      requires Valid()
      modifies Repr()
      ensures Valid() && State() == Pipeline.Execute(config, old(State()), 0, 0)
    {
      var executeCount, i := 0, 0;
      while i < rob.size && executeCount < config.executeWidth
        invariant Valid() && 0 <= i <= |rob.contents|
        invariant Pipeline.Execute(config, State(), i, executeCount) == Pipeline.Execute(config, old(State()), 0, 0)
        decreases |rob.contents| - i
      {
        rob.SizeIsLength();
        var x := rob.PeekAt(i).instr;
        var dependencies := regAlloc.CountRegDependencies(x.srcs);
        if x.scheduled && !x.executed && currentCycle >= x.readyTime && dependencies == 0 {
          ExecuteAt(i, x);
          executeCount := executeCount + 1;
        }
        i := i + 1;
      }
      rob.SizeIsLength();
    }

    method ExecuteAt(i: nat, x: Instr)
      requires Valid() && i < |rob.contents| && rob.contents[i] == x
      modifies Repr()
      ensures Valid() && State() == ExecuteOne(config, old(State()), i)
    {
      rob.Put(i, x.(executed := true, readyTime := currentCycle + config.executeLatency));
    }

    // ------------------------------------------------------------------ schedule

    method Schedule()
      requires Valid()
      modifies Repr()
      ensures Valid() && State() == Pipeline.Schedule(config, old(State()), 0, 0)
    {
      var searchCount, i := 0, 0;
      while i < rob.size && searchCount < config.scheduleWidth
        invariant Valid() && 0 <= i <= |rob.contents|
        invariant Pipeline.Schedule(config, State(), i, searchCount) == Pipeline.Schedule(config, old(State()), 0, 0)
        decreases |rob.contents| - i
      {
        rob.SizeIsLength();
        var x := rob.PeekAt(i).instr;
        var needs := regAlloc.CountNeeds(x.srcs, x.dests);
        if |regAlloc.freeRegisters| < needs {
          break;
        }
        if !x.scheduled && currentCycle >= x.readyTime {
          DoScheduling(i, x);
        }
        if !x.executed {
          searchCount := searchCount + 1;
        }
        i := i + 1;
      }
      rob.SizeIsLength();
    }

    /** doScheduling; the count check before it is all it needs not to run out of free
        registers. */
    method DoScheduling(i: nat, x: Instr)
      requires Valid() && i < |rob.contents| && rob.contents[i] == x
      requires Needs(regAlloc.State(), x) <= |regAlloc.freeRegisters|
      modifies Repr()
      ensures Valid() && State() == ScheduleOne(old(State()), i)
    {
      var srcs := regAlloc.RenameSources(x.srcs);
      var dests := regAlloc.RenameDestinations(x.dests, x.id);
      rob.Put(i, x.(srcs := srcs, dests := dests, scheduled := true));
    }

    // ------------------------------------------------------------------ dispatch

    method Dispatch(lsqFull: set<nat>)
      requires Valid()
      modifies Repr()
      ensures Valid() && State() == Pipeline.Dispatch(config, old(State()), lsqFull, 0)
    {
      var dispatchCount := 0;
      while dispatchCount < config.dispatchWidth && |decodeQueue| > 0
        invariant Valid()
        invariant Pipeline.Dispatch(config, State(), lsqFull, dispatchCount) == Pipeline.Dispatch(config, old(State()), lsqFull, 0)
        decreases config.dispatchWidth - dispatchCount
      {
        var x := decodeQueue[0];
        rob.SizeIsLength();
        if currentCycle < x.readyTime {
          break;
        }
        if rob.IsFull() {
          break;
        }
        if x.id in lsqFull {
          break;
        }
        DispatchFront(x);
        dispatchCount := dispatchCount + 1;
      }
    }

    /** The ready time is set through the pointer after the instruction has been added. */
    method DispatchFront(x: Instr)
      requires Valid() && |decodeQueue| > 0 && x == decodeQueue[0] && |rob.contents| < rob.maxSize
      modifies Repr()
      ensures Valid() && State() == DispatchOne(config, old(State()))
    {
      var ok := rob.Add(x);
      rob.SizeIsLength();
      rob.Put(rob.size - 1, x.(readyTime := currentCycle + config.dispatchLatency));
      decodeQueue := decodeQueue[1..];
    }

    // ------------------------------------------------------------------ decode and fetch

    method Decode()
      requires Valid()
      modifies Repr()
      ensures Valid() && State() == Pipeline.Decode(config, old(State()), 0)
    {
      if |decodeQueue| >= config.decodeQueueSize {
        return;
      }
      var decodeCount := 0;
      while decodeCount < config.decodeWidth && |fetchQueue| > 0
        invariant Valid()
        invariant Pipeline.Decode(config, State(), decodeCount) == Pipeline.Decode(config, old(State()), 0)
        decreases config.decodeWidth - decodeCount
      {
        if |decodeQueue| >= config.decodeQueueSize {
          break;
        }
        var x := fetchQueue[0];
        if currentCycle < x.readyTime {
          break;
        }
        decodeQueue := decodeQueue + [x.(readyTime := currentCycle + config.decodeLatency)];
        fetchQueue := fetchQueue[1..];
        decodeCount := decodeCount + 1;
      }
    }

    method Fetch()
      requires Valid()
      modifies Repr()
      ensures Valid() && State() == Pipeline.Fetch(config, old(State()), program)
    {
      rob.SizeIsLength();
      if |fetchQueue| >= config.fetchQueueSize {
        return;
      }
      if rob.IsFull() {
        return;
      }
      var fetchCount := 0;
      while fetchCount < config.fetchWidth
        invariant Valid()
        invariant FetchLoop(config, State(), program, fetchCount) == FetchLoop(config, old(State()), program, 0)
        decreases config.fetchWidth - fetchCount
      {
        if |fetchQueue| >= config.fetchQueueSize {
          break;
        }
        if instrCounter >= |program| {
          break;
        }
        var t := program[instrCounter];
        fetchQueue := fetchQueue + [Read(config, t, instrCounter, currentCycle)];
        instrCounter := instrCounter + 1;
        if t.isBranch {
          return;
        }
        fetchCount := fetchCount + 1;
      }
    }

    // ------------------------------------------------------------------ memory responses

    /** What HandleLoadResponse and HandleStoreResponse do to the reorder buffer. */
    method HandleResponse(id: nat)
      requires Valid()
      modifies Repr()
      ensures Valid() && State() == Respond(old(State()), id)
    {
      var at := rob.FindByInstrID(id);
      if at != -1 {
        var x := rob.PeekAt(at).instr;
        rob.Put(at, x.(memOpsDone := x.memOpsDone + 1));
      }
    }

    /** Tick, with the responses that arrive while memory operations are processed and, in
        standalone mode, while instructions execute. */
    method Tick(lsqFull: set<nat>, arrived: seq<nat>, immediate: seq<nat>)
      requires Valid()
      modifies Repr()
      ensures Valid()
      ensures State() == Run(config, program, old(State()), TickEvents(lsqFull, Responses(arrived), Responses(immediate)))
    {
      hide Step, Pipeline.Run;
      ghost var c := State();
      BeginTick();
      ghost var c1 := State();
      HandleResponses(arrived);
      CompleteAndExecute();
      ghost var c2 := State();
      HandleResponses(immediate);
      ghost var c3 := State();
      FillPipeline(lsqFull);
      TickInParts(config, program, c, c1, c2, c3, State(), lsqFull, Responses(arrived), Responses(immediate));
    }

    method BeginTick()
      requires Valid()
      modifies Repr()
      ensures Valid()
      ensures State() == Step(config, program, Step(config, program, old(State()), NextCycle), RetireStage)
    {
      currentCycle := currentCycle + 1;
      Retire();
    }

    method CompleteAndExecute()
      requires Valid()
      modifies Repr()
      ensures Valid()
      ensures State() == Step(config, program, Step(config, program, old(State()), CompleteStage), ExecuteStage)
    {
      Complete();
      Execute();
    }

    method FillPipeline(lsqFull: set<nat>)
      requires Valid()
      modifies Repr()
      ensures Valid()
      ensures State() == Step(config, program, Step(config, program, Step(config, program, Step(config, program,
                         old(State()), ScheduleStage), DispatchStage(lsqFull)), DecodeStage), FetchStage)
    {
      Schedule();
      Dispatch(lsqFull);
      Decode();
      Fetch();
    }

    method HandleResponses(ids: seq<nat>)
      requires Valid()
      modifies Repr()
      ensures Valid() && State() == Run(config, program, old(State()), Responses(ids))
    {
      ghost var c := State();
      assert Responses(ids[..0]) == [];
      for i := 0 to |ids|
        invariant Valid() && State() == Run(config, program, c, Responses(ids[..i]))
      {
        HandleResponse(ids[i]);
        assert Responses(ids[..i + 1]) == Responses(ids[..i]) + [Response(ids[i])];
        RunInTwoParts(config, program, c, Responses(ids[..i]), [Response(ids[i])]);
        RunOne(config, program, Run(config, program, c, Responses(ids[..i])), Response(ids[i]));
      }
      assert ids[..|ids|] == ids;
    }
  }

  function Responses(ids: seq<nat>): seq<Event> {
    seq(|ids|, i requires 0 <= i < |ids| => Response(ids[i]))
  }

  lemma {:induction false} RunInTwoParts(k: Config, program: seq<TraceInstr>, c: Core, first: seq<Event>, second: seq<Event>)
    requires c.regs.Ok()
    ensures Run(k, program, c, first + second) == Run(k, program, Run(k, program, c, first), second)
    decreases |first|
  {
    hide Step;
    if first == [] {
      assert first + second == second;
    } else {
      assert (first + second)[1..] == first[1..] + second;
      RunInTwoParts(k, program, Step(k, program, c, first[0]), first[1..], second);
    }
  }

  lemma RunOne(k: Config, program: seq<TraceInstr>, c: Core, e: Event)
    requires c.regs.Ok()
    ensures Run(k, program, c, [e]) == Step(k, program, c, e)
  {
    hide Step;
    assert [e][1..] == [];
  }

  lemma RunTwo(k: Config, program: seq<TraceInstr>, c: Core, e: Event, e': Event)
    requires c.regs.Ok()
    ensures Run(k, program, c, [e, e']) == Step(k, program, Step(k, program, c, e), e')
  {
    hide Step;
    assert [e, e'][1..] == [e'];
    RunOne(k, program, Step(k, program, c, e), e');
  }

  /** The four groups of steps of one tick. */
  lemma TickInParts(k: Config, program: seq<TraceInstr>, c: Core, c1: Core, c2: Core, c3: Core, end: Core,
                    lsqFull: set<nat>, arrived: seq<Event>, immediate: seq<Event>)
    requires c.regs.Ok() && c1.regs.Ok() && c2.regs.Ok() && c3.regs.Ok()
    requires c1 == Step(k, program, Step(k, program, c, NextCycle), RetireStage)
    requires c2 == Step(k, program, Step(k, program, Run(k, program, c1, arrived), CompleteStage), ExecuteStage)
    requires c3 == Run(k, program, c2, immediate)
    requires end == Step(k, program, Step(k, program, Step(k, program, Step(k, program, c3,
                    ScheduleStage), DispatchStage(lsqFull)), DecodeStage), FetchStage)
    ensures end == Run(k, program, c, TickEvents(lsqFull, arrived, immediate))
  {
    hide Step;
    var one, two := [NextCycle, RetireStage], [CompleteStage, ExecuteStage];
    var three, four := [ScheduleStage, DispatchStage(lsqFull)], [DecodeStage, FetchStage];
    RunTwo(k, program, c, NextCycle, RetireStage);
    RunTwo(k, program, Run(k, program, c1, arrived), CompleteStage, ExecuteStage);
    RunTwo(k, program, c3, ScheduleStage, DispatchStage(lsqFull));
    var c4 := Run(k, program, c3, three);
    RunTwo(k, program, c4, DecodeStage, FetchStage);
    RunInTwoParts(k, program, c, one, arrived);
    RunInTwoParts(k, program, c, one + arrived, two);
    RunInTwoParts(k, program, c, one + arrived + two, immediate);
    RunInTwoParts(k, program, c, one + arrived + two + immediate, three);
    RunInTwoParts(k, program, c, one + arrived + two + immediate + three, four);
    assert TickEvents(lsqFull, arrived, immediate) == one + arrived + two + immediate + three + four;
  }

  // ------------------------------------------------ mispredicted branches

  /** No instruction ever carries the mark of a misprediction, so in this code the branch of
      retire that would recover from one is dead. */
  lemma NothingIsMispredicted(k: Config, program: seq<TraceInstr>, numPhysical: nat, events: seq<Event>, p: nat)
    ensures var c := Run(k, program, InitialCore(numPhysical), events);
            && (p < |c.rob| ==> !c.rob[p].mispredicted)
            && (CanRetire(c) ==> RetireOne(c) == RetireHead(c))
  {
    InitialInv(k, program, numPhysical);
    RunKeepsInv(k, program, InitialCore(numPhysical), events);
  }

  function Marked(x: Instr): Instr {
    x.(mispredicted := true)
  }

  /** If the branch at the head of the buffer did carry the mark, in any reachable state: it
      has left the buffer before Flush looks for it, so no instruction behind it is dropped
      from the buffer, although all of them were fetched on the wrong path; and the
      instructions that are dropped, from the queues, are never fetched again. */
  lemma RecoveryKeepsTheBuffer(k: Config, program: seq<TraceInstr>, numPhysical: nat, events: seq<Event>)
    ensures var c := Run(k, program, InitialCore(numPhysical), events);
            CanRetire(c) && c.rob[0].trace.isBranch ==>
            var after := RetireOne(c.(rob := c.rob[0 := Marked(c.rob[0])]));
            && after.rob == c.rob[1..]
            && after.decodeQueue == [] && after.fetchQueue == []
            && after.counter == |after.retired| + |after.rob| + |c.decodeQueue| + |c.fetchQueue|
  {
    InitialInv(k, program, numPhysical);
    RunKeepsInv(k, program, InitialCore(numPhysical), events);
    var c := Run(k, program, InitialCore(numPhysical), events);
    if CanRetire(c) && c.rob[0].trace.isBranch {
      var marked := c.(rob := c.rob[0 := Marked(c.rob[0])]);
      var rest := marked.rob[1..];
      assert rest == c.rob[1..];
      assert forall i :: 0 <= i < |rest| ==> rest[i] == c.rob[i + 1];
      assert Find(rest, c.rob[0].id) == |rest|;
    }
  }

  /** A branch and two more instructions, none with operands; a core that handles one
      instruction per stage. */
  const BRANCH_FIRST := [TraceInstr([], [], true, 0), TraceInstr([], [], false, 0), TraceInstr([], [], false, 0)]
  const ONE_WIDE := Config(1, 1, 1, 1, 1, 1, 4, 4, 4, 0, 0, 0, 0)

  /** All three are fetched, two are dispatched, and the branch completes. */
  const FILL: seq<Event> := [FetchStage, FetchStage, FetchStage, DecodeStage, DecodeStage]
  const WORK: seq<Event> := [DispatchStage({}), DispatchStage({}), ScheduleStage, ExecuteStage, CompleteStage]

  function Fetched(id: nat): Instr
    requires id < 3
  {
    Read(ONE_WIDE, BRANCH_FIRST[id], id, 0)
  }

  /** What one round of each stage does. */
  lemma FrontOnce(k: Config, program: seq<TraceInstr>, c: Core)
    requires k.fetchWidth == k.decodeWidth == k.dispatchWidth == 1 && c.regs.Ok()
    ensures CanFetch(k, c, program) && |c.rob| < k.robSize ==> Step(k, program, c, FetchStage) == FetchOne(k, c, program)
    ensures CanDecode(k, c) ==> Step(k, program, c, DecodeStage) == DecodeOne(k, c)
    ensures CanDispatch(k, c, {}) ==> Step(k, program, c, DispatchStage({})) == DispatchOne(k, c)
  {
    if CanFetch(k, c, program) {
      assert FetchLoop(k, FetchOne(k, c, program), program, 1) == FetchOne(k, c, program);
    }
    if CanDecode(k, c) {
      assert Decode(k, DecodeOne(k, c), 1) == DecodeOne(k, c);
    }
    if CanDispatch(k, c, {}) {
      assert Dispatch(k, DispatchOne(k, c), {}, 1) == DispatchOne(k, c);
    }
  }

  lemma BackOnce(k: Config, program: seq<TraceInstr>, c: Core)
    requires k.scheduleWidth == k.executeWidth == 1 && c.regs.Ok()
    requires c.rob != [] && c.rob[0].srcs == c.rob[0].dests == [] && c.rob[0].trace.memOps == 0 && c.rob[0].readyTime <= c.cycle
    ensures var x := c.rob[0];
            && (!x.scheduled && !x.executed ==>
                  Step(k, program, c, ScheduleStage) == c.(rob := c.rob[0 := x.(scheduled := true)]))
            && (x.scheduled && !x.executed ==>
                  Step(k, program, c, ExecuteStage) == c.(rob := c.rob[0 := x.(executed := true, readyTime := c.cycle + k.executeLatency)]))
            && (x.executed && !x.completed ==>
                  Step(k, program, c, CompleteStage) == c.(rob := c.rob[0 := x.(completed := true)]))
  {
    var x := c.rob[0];
    if !x.scheduled && !x.executed {
      assert ScheduleOne(c, 0) == c.(rob := c.rob[0 := x.(scheduled := true)]);
      assert Schedule(k, c, 0, 0) == Schedule(k, ScheduleOne(c, 0), 1, 1);
    }
    if x.scheduled && !x.executed {
      assert Execute(k, c, 0, 0) == Execute(k, ExecuteOne(k, c, 0), 1, 1);
    }
    if x.executed && !x.completed {
      assert Complete(k, c, 0, 0) == Complete(k, CompleteOne(c, 0), 1, 1);
    }
  }

  /** A core in cycle 0 that holds these instructions. */
  function Holding(rob: seq<Instr>, decodeQueue: seq<Instr>, fetchQueue: seq<Instr>, counter: nat): (c: Core)
    ensures c.regs.Ok()
  {
    InitialCore(0).(rob := rob, decodeQueue := decodeQueue, fetchQueue := fetchQueue, counter := counter)
  }

  lemma FetchNext(fetched: seq<Instr>, id: nat)
    requires id < 3 && |fetched| == id
    ensures Step(ONE_WIDE, BRANCH_FIRST, Holding([], [], fetched, id), FetchStage) ==
            Holding([], [], fetched + [Fetched(id)], id + 1)
  {
    hide Step;
    FrontOnce(ONE_WIDE, BRANCH_FIRST, Holding([], [], fetched, id));
  }

  lemma DecodeNext(decoded: seq<Instr>, x: Instr, rest: seq<Instr>, counter: nat)
    requires |decoded| < 4 && x.readyTime == 0
    ensures Step(ONE_WIDE, BRANCH_FIRST, Holding([], decoded, [x] + rest, counter), DecodeStage) ==
            Holding([], decoded + [x], rest, counter)
  {
    hide Step;
    assert ([x] + rest)[1..] == rest;
    FrontOnce(ONE_WIDE, BRANCH_FIRST, Holding([], decoded, [x] + rest, counter));
  }

  lemma DispatchNext(rob: seq<Instr>, x: Instr, rest: seq<Instr>, fetched: seq<Instr>, counter: nat)
    requires |rob| < 4 && x.readyTime == 0
    ensures Step(ONE_WIDE, BRANCH_FIRST, Holding(rob, [x] + rest, fetched, counter), DispatchStage({})) ==
            Holding(rob + [x], rest, fetched, counter)
  {
    hide Step;
    assert ([x] + rest)[1..] == rest;
    FrontOnce(ONE_WIDE, BRANCH_FIRST, Holding(rob, [x] + rest, fetched, counter));
  }

  lemma BackNext(x: Instr, rest: seq<Instr>, fetched: seq<Instr>, counter: nat)
    requires x.srcs == x.dests == [] && x.trace.memOps == 0 && x.readyTime == 0 && !x.executed && !x.completed
    ensures var c := Holding([x] + rest, [], fetched, counter);
            if x.scheduled
            then Step(ONE_WIDE, BRANCH_FIRST, c, ExecuteStage) == Holding([x.(executed := true)] + rest, [], fetched, counter)
            else Step(ONE_WIDE, BRANCH_FIRST, c, ScheduleStage) == Holding([x.(scheduled := true)] + rest, [], fetched, counter)
  {
    hide Step;
    BackOnce(ONE_WIDE, BRANCH_FIRST, Holding([x] + rest, [], fetched, counter));
    assert ([x] + rest)[0 := x.(executed := true)] == [x.(executed := true)] + rest;
    assert ([x] + rest)[0 := x.(scheduled := true)] == [x.(scheduled := true)] + rest;
  }

  lemma CompleteNext(x: Instr, rest: seq<Instr>, fetched: seq<Instr>, counter: nat)
    requires x.srcs == x.dests == [] && x.trace.memOps == 0 && x.readyTime == 0 && x.executed && !x.completed
    ensures Step(ONE_WIDE, BRANCH_FIRST, Holding([x] + rest, [], fetched, counter), CompleteStage) ==
            Holding([x.(completed := true)] + rest, [], fetched, counter)
  {
    hide Step;
    BackOnce(ONE_WIDE, BRANCH_FIRST, Holding([x] + rest, [], fetched, counter));
    assert ([x] + rest)[0 := x.(completed := true)] == [x.(completed := true)] + rest;
  }

  lemma FetchedIsFresh(id: nat)
    requires id < 3
    ensures var x := Fetched(id);
            && x.id == id && x.srcs == x.dests == [] && x.trace == BRANCH_FIRST[id] && x.trace.memOps == 0
            && x.readyTime == 0 && !x.scheduled && !x.executed && !x.completed
  {
  }

  lemma FetchThree()
    ensures var x, y, z := Fetched(0), Fetched(1), Fetched(2);
            && Step(ONE_WIDE, BRANCH_FIRST, Holding([], [], [], 0), FetchStage) == Holding([], [], [x], 1)
            && Step(ONE_WIDE, BRANCH_FIRST, Holding([], [], [x], 1), FetchStage) == Holding([], [], [x, y], 2)
            && Step(ONE_WIDE, BRANCH_FIRST, Holding([], [], [x, y], 2), FetchStage) == Holding([], [], [x, y, z], 3)
  {
    hide Step, Holding, Fetched;
    var x, y, z := Fetched(0), Fetched(1), Fetched(2);
    FetchNext([], 0);
    FetchNext([x], 1);
    FetchNext([x, y], 2);
    assert [] + [x] == [x] && [x] + [y] == [x, y] && [x, y] + [z] == [x, y, z];
  }

  lemma DecodeTwo()
    ensures var x, y, z := Fetched(0), Fetched(1), Fetched(2);
            && Step(ONE_WIDE, BRANCH_FIRST, Holding([], [], [x, y, z], 3), DecodeStage) == Holding([], [x], [y, z], 3)
            && Step(ONE_WIDE, BRANCH_FIRST, Holding([], [x], [y, z], 3), DecodeStage) == Holding([], [x, y], [z], 3)
  {
    FetchedIsFresh(0);
    FetchedIsFresh(1);
    hide Step, Holding, Fetched;
    var x, y, z := Fetched(0), Fetched(1), Fetched(2);
    DecodeNext([], x, [y, z], 3);
    DecodeNext([x], y, [z], 3);
    assert [x] + [y, z] == [x, y, z] && [y] + [z] == [y, z] && [] + [x] == [x] && [x] + [y] == [x, y];
  }

  lemma FillTheQueues()
    ensures Run(ONE_WIDE, BRANCH_FIRST, InitialCore(0), FILL) == Holding([], [Fetched(0), Fetched(1)], [Fetched(2)], 3)
  {
    assert Holding([], [], [], 0) == InitialCore(0);
    hide Step, Run, Holding, Fetched;
    var x, y, z := Fetched(0), Fetched(1), Fetched(2);
    FetchThree();
    DecodeTwo();
    RunFive(ONE_WIDE, BRANCH_FIRST,
            Holding([], [], [], 0), Holding([], [], [x], 1), Holding([], [], [x, y], 2), Holding([], [], [x, y, z], 3),
            Holding([], [x], [y, z], 3), Holding([], [x, y], [z], 3), FILL);
  }

  function Completed(x: Instr): Instr {
    x.(scheduled := true, executed := true, completed := true)
  }

  lemma DispatchTwo()
    ensures var x, y, z := Fetched(0), Fetched(1), [Fetched(2)];
            && Step(ONE_WIDE, BRANCH_FIRST, Holding([], [x, y], z, 3), DispatchStage({})) == Holding([x], [y], z, 3)
            && Step(ONE_WIDE, BRANCH_FIRST, Holding([x], [y], z, 3), DispatchStage({})) == Holding([x, y], [], z, 3)
  {
    FetchedIsFresh(0);
    FetchedIsFresh(1);
    hide Step, Holding, Fetched;
    var x, y, z := Fetched(0), Fetched(1), [Fetched(2)];
    DispatchNext([], x, [y], z, 3);
    DispatchNext([x], y, [], z, 3);
    assert [x] + [y] == [x, y] && [] + [x] == [x] && [y] + [] == [y];
  }

  lemma WorkOnOne(x: Instr, y: Instr, z: seq<Instr>)
    requires x.srcs == x.dests == [] && x.trace.memOps == 0 && x.readyTime == 0
    requires !x.scheduled && !x.executed && !x.completed
    ensures var x1, x2 := x.(scheduled := true), x.(scheduled := true, executed := true);
            && Step(ONE_WIDE, BRANCH_FIRST, Holding([x, y], [], z, 3), ScheduleStage) == Holding([x1, y], [], z, 3)
            && Step(ONE_WIDE, BRANCH_FIRST, Holding([x1, y], [], z, 3), ExecuteStage) == Holding([x2, y], [], z, 3)
            && Step(ONE_WIDE, BRANCH_FIRST, Holding([x2, y], [], z, 3), CompleteStage) == Holding([Completed(x), y], [], z, 3)
  {
    hide Step, Holding;
    var x1, x2 := x.(scheduled := true), x.(scheduled := true, executed := true);
    BackNext(x, [y], z, 3);
    BackNext(x1, [y], z, 3);
    CompleteNext(x2, [y], z, 3);
    assert [x] + [y] == [x, y] && [x1] + [y] == [x1, y] && [x2] + [y] == [x2, y];
    assert [Completed(x)] + [y] == [Completed(x), y];
  }

  lemma CompleteTheBranch()
    ensures Run(ONE_WIDE, BRANCH_FIRST, Holding([], [Fetched(0), Fetched(1)], [Fetched(2)], 3), WORK) ==
            Holding([Completed(Fetched(0)), Fetched(1)], [], [Fetched(2)], 3)
  {
    FetchedIsFresh(0);
    hide Step, Run, Holding, Fetched, Completed;
    var x, y, z := Fetched(0), Fetched(1), [Fetched(2)];
    var x1, x2 := x.(scheduled := true), x.(scheduled := true, executed := true);
    DispatchTwo();
    WorkOnOne(x, y, z);
    RunFive(ONE_WIDE, BRANCH_FIRST,
            Holding([], [x, y], z, 3), Holding([x], [y], z, 3), Holding([x, y], [], z, 3),
            Holding([x1, y], [], z, 3), Holding([x2, y], [], z, 3), Holding([Completed(x), y], [], z, 3), WORK);
  }

  lemma RunFive(k: Config, program: seq<TraceInstr>, c0: Core, c1: Core, c2: Core, c3: Core, c4: Core, c5: Core,
                events: seq<Event>)
    requires |events| == 5 && c0.regs.Ok() && c1.regs.Ok() && c2.regs.Ok() && c3.regs.Ok() && c4.regs.Ok()
    requires c1 == Step(k, program, c0, events[0]) && c2 == Step(k, program, c1, events[1])
    requires c3 == Step(k, program, c2, events[2]) && c4 == Step(k, program, c3, events[3])
    requires c5 == Step(k, program, c4, events[4])
    ensures Run(k, program, c0, events) == c5
  {
    hide Step;
    RunTwo(k, program, c0, events[0], events[1]);
    RunTwo(k, program, c2, events[2], events[3]);
    RunOne(k, program, c4, events[4]);
    RunInTwoParts(k, program, c2, events[2..4], events[4..]);
    RunInTwoParts(k, program, c0, events[..2], events[2..]);
    assert events[..2] == [events[0], events[1]] && events[2..4] == [events[2], events[3]] && events[4..] == [events[4]];
    assert events[2..] == events[2..4] + events[4..] && events == events[..2] + events[2..];
  }

  /** A state in which that would do harm: instruction 1 stays in the buffer, and 2 is lost. */
  lemma WrongPathSurvives()
    ensures var c := Run(ONE_WIDE, BRANCH_FIRST, InitialCore(0), FILL + WORK);
            && CanRetire(c) && c.rob[0].trace.isBranch
            && var after := RetireOne(c.(rob := c.rob[0 := Marked(c.rob[0])]));
               && |after.rob| == 1 && after.rob[0].id == 1
               && after.decodeQueue == [] && after.fetchQueue == [] && after.counter == 3
  {
    hide Step, Run;
    FillTheQueues();
    CompleteTheBranch();
    FetchedIsFresh(0);
    FetchedIsFresh(1);
    hide Fetched;
    RunInTwoParts(ONE_WIDE, BRANCH_FIRST, InitialCore(0), FILL, WORK);
    RecoveryKeepsTheBuffer(ONE_WIDE, BRANCH_FIRST, 0, FILL + WORK);
  }
}
