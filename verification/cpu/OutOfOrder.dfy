/** What holds in every state the core can reach, for every program, configuration and
    sequence of stages, cycles and memory responses. */
module OutOfOrder {
  import opened Renaming
  import opened Pipeline
  import opened Dataflow
  import opened DataflowSteps

  // ------------------------------------------------------------------ one instruction

  lemma RetireOneKeepsStages(k: Config, program: seq<TraceInstr>, c: Core)
    requires c.regs.Ok() && InOrder(program, c) && Staged(k, c) && CanRetire(c)
    ensures RetireOne(c) == RetireHead(c)
    ensures InOrder(program, RetireHead(c)) && Staged(k, RetireHead(c))
    ensures c.rob[0].scheduled && c.rob[0].id == |c.retired| < |program| && c.rob[0].trace == program[|c.retired|]
  {
  }

  lemma RetireOneKeepsInv(k: Config, program: seq<TraceInstr>, c: Core)
    requires Inv(k, program, c) && CanRetire(c)
    ensures Inv(k, program, RetireOne(c))
  {
    hide Linked, InOrder, Staged;
    RetireOneKeepsStages(k, program, c);
    RetireKeepsLinks(program, c);
  }

  /** `y` has the flags of `x`, or one more. */
  predicate Advances(x: Instr, y: Instr) {
    && y.id == x.id && y.trace == x.trace && y.scheduled == x.scheduled && y.mispredicted == x.mispredicted
    && (y.completed ==> y.executed)
    && (!x.scheduled ==> y == x.(memOpsDone := y.memOpsDone))
  }

  lemma AdvancingKeepsStages(k: Config, program: seq<TraceInstr>, c: Core, i: nat, y: Instr, r: Regs)
    requires InOrder(program, c) && Staged(k, c) && i < |c.rob| && Advances(c.rob[i], y)
    ensures InOrder(program, c.(rob := c.rob[i := y], regs := r)) && Staged(k, c.(rob := c.rob[i := y], regs := r))
  {
  }

  lemma CompletableIsScheduled(k: Config, c: Core, i: nat)
    requires Staged(k, c) && i < |c.rob| && c.rob[i].executed
    ensures c.rob[i].scheduled
  {
  }

  lemma CompleteOneKeepsInv(k: Config, program: seq<TraceInstr>, c: Core, i: nat)
    requires Inv(k, program, c) && i < |c.rob| && CanComplete(c, i)
    ensures Inv(k, program, CompleteOne(c, i))
  {
    hide Linked, InOrder, Staged;
    CompletableIsScheduled(k, c, i);
    AdvancingKeepsStages(k, program, c, i, CompleteOne(c, i).rob[i], CompleteOne(c, i).regs);
    CompleteKeepsLinks(program, c, i);
  }

  lemma TouchKeepsInv(k: Config, program: seq<TraceInstr>, c: Core, i: nat, y: Instr)
    requires Inv(k, program, c) && i < |c.rob| && Touched(c.regs, c.rob[i], y) && Advances(c.rob[i], y)
    ensures Inv(k, program, c.(rob := c.rob[i := y]))
  {
    hide Linked, InOrder, Staged;
    AdvancingKeepsStages(k, program, c, i, y, c.regs);
    TouchKeepsLinks(program, c, i, y);
  }

  lemma ExecuteOneKeepsInv(k: Config, program: seq<TraceInstr>, c: Core, i: nat)
    requires Inv(k, program, c) && i < |c.rob| && CanExecute(c, i)
    ensures Inv(k, program, ExecuteOne(k, c, i))
  {
    hide Linked, InOrder, Staged;
    TouchKeepsInv(k, program, c, i, ExecuteOne(k, c, i).rob[i]);
  }

  lemma RespondAdvances(k: Config, c: Core, i: nat)
    requires Staged(k, c) && i < |c.rob|
    ensures Advances(c.rob[i], c.rob[i].(memOpsDone := c.rob[i].memOpsDone + 1))
  {
  }

  lemma RespondKeepsInv(k: Config, program: seq<TraceInstr>, c: Core, id: nat)
    requires Inv(k, program, c)
    ensures Inv(k, program, Respond(c, id))
  {
    hide Linked, InOrder, Staged;
    var i := Find(c.rob, id);
    if i < |c.rob| {
      RespondAdvances(k, c, i);
      TouchKeepsInv(k, program, c, i, c.rob[i].(memOpsDone := c.rob[i].memOpsDone + 1));
    }
  }

  lemma ScheduleOneKeepsStages(k: Config, program: seq<TraceInstr>, c: Core, i: nat)
    requires c.regs.Ok() && InOrder(program, c) && Staged(k, c) && i < |c.rob| && CanSchedule(c, i) && IsFrontier(c.rob, i)
    requires Needs(c.regs, c.rob[i]) <= |c.regs.free|
    ensures InOrder(program, ScheduleOne(c, i)) && Staged(k, ScheduleOne(c, i)) && Untouched(c.rob[i])
  {
  }

  lemma ScheduleOneKeepsInv(k: Config, program: seq<TraceInstr>, c: Core, i: nat)
    requires Inv(k, program, c) && i < |c.rob| && CanSchedule(c, i) && IsFrontier(c.rob, i)
    requires Needs(c.regs, c.rob[i]) <= |c.regs.free|
    ensures Inv(k, program, ScheduleOne(c, i))
  {
    hide Linked, InOrder, Staged;
    ScheduleOneKeepsStages(k, program, c, i);
    ScheduleKeepsLinks(program, c, i);
  }

  lemma DispatchOneKeepsStages(k: Config, program: seq<TraceInstr>, c: Core)
    requires InOrder(program, c) && Staged(k, c) && c.decodeQueue != []
    ensures InOrder(program, DispatchOne(k, c)) && Staged(k, DispatchOne(k, c)) && Untouched(c.decodeQueue[0])
  {
    assert Untouched(c.decodeQueue[0]);
  }

  lemma DispatchOneKeepsInv(k: Config, program: seq<TraceInstr>, c: Core)
    requires Inv(k, program, c) && c.decodeQueue != []
    ensures Inv(k, program, DispatchOne(k, c))
  {
    hide Linked, InOrder, Staged;
    DispatchOneKeepsStages(k, program, c);
    DispatchKeepsLinks(program, c, c.decodeQueue[0].(readyTime := c.cycle + k.dispatchLatency));
    OnlyQueuesMoved(program, c.(rob := DispatchOne(k, c).rob), DispatchOne(k, c));
  }

  /** Links are about the buffer, the registers and what has retired. */
  lemma OnlyQueuesMoved(program: seq<TraceInstr>, c: Core, c': Core)
    requires Linked(program, c) && c'.rob == c.rob && c'.regs == c.regs && c'.retired == c.retired
    ensures Linked(program, c')
  {
    forall p | 0 <= p < |c'.rob| ensures SrcsKnown(c', p) { assert SrcsKnown(c, p); }
    forall a: Arch ensures Committed(program, c', a) { assert Committed(program, c, a); }
    assert FrontIsNewest(c);
  }

  lemma DecodeOneKeepsStages(k: Config, program: seq<TraceInstr>, c: Core)
    requires InOrder(program, c) && Staged(k, c) && c.fetchQueue != []
    ensures InOrder(program, DecodeOne(k, c)) && Staged(k, DecodeOne(k, c))
  {
    assert Untouched(c.fetchQueue[0]);
  }

  lemma DecodeOneKeepsInv(k: Config, program: seq<TraceInstr>, c: Core)
    requires Inv(k, program, c) && c.fetchQueue != []
    ensures Inv(k, program, DecodeOne(k, c))
  {
    hide Linked, InOrder, Staged;
    DecodeOneKeepsStages(k, program, c);
    OnlyQueuesMoved(program, c, DecodeOne(k, c));
  }

  lemma FetchOneKeepsStages(k: Config, program: seq<TraceInstr>, c: Core)
    requires InOrder(program, c) && Staged(k, c) && c.counter < |program|
    ensures InOrder(program, FetchOne(k, c, program)) && Staged(k, FetchOne(k, c, program))
  {
  }

  lemma FetchOneKeepsInv(k: Config, program: seq<TraceInstr>, c: Core)
    requires Inv(k, program, c) && c.counter < |program|
    ensures Inv(k, program, FetchOne(k, c, program))
  {
    hide Linked, InOrder, Staged;
    FetchOneKeepsStages(k, program, c);
    OnlyQueuesMoved(program, c, FetchOne(k, c, program));
  }

  // ------------------------------------------------------------------ one stage

  lemma {:induction false} RetireKeepsInv(k: Config, program: seq<TraceInstr>, c: Core, count: int) returns (end: Core)
    requires Inv(k, program, c)
    ensures end == Retire(k, c, count) && Inv(k, program, end)
    decreases k.retireWidth - count
  {
    hide Linked, InOrder, Staged;
    end := c;
    if count < k.retireWidth && CanRetire(c) {
      RetireOneKeepsInv(k, program, c);
      end := RetireKeepsInv(k, program, RetireOne(c), count + 1);
    }
  }

  lemma {:induction false} CompleteKeepsInv(k: Config, program: seq<TraceInstr>, c: Core, i: nat, count: int) returns (end: Core)
    requires Inv(k, program, c)
    ensures end == Complete(k, c, i, count) && Inv(k, program, end)
    decreases |c.rob| - i
  {
    hide Linked, InOrder, Staged;
    end := c;
    if i < |c.rob| && count < k.executeWidth {
      if CanComplete(c, i) {
        CompleteOneKeepsInv(k, program, c, i);
        end := CompleteKeepsInv(k, program, CompleteOne(c, i), i + 1, count + 1);
      } else {
        end := CompleteKeepsInv(k, program, c, i + 1, count);
      }
    }
  }

  lemma {:induction false} ExecuteKeepsInv(k: Config, program: seq<TraceInstr>, c: Core, i: nat, count: int) returns (end: Core)
    requires Inv(k, program, c)
    ensures end == Execute(k, c, i, count) && Inv(k, program, end)
    decreases |c.rob| - i
  {
    hide Linked, InOrder, Staged;
    end := c;
    if i < |c.rob| && count < k.executeWidth {
      if CanExecute(c, i) {
        ExecuteOneKeepsInv(k, program, c, i);
        end := ExecuteKeepsInv(k, program, ExecuteOne(k, c, i), i + 1, count + 1);
      } else {
        end := ExecuteKeepsInv(k, program, c, i + 1, count);
      }
    }
  }

  /** The scan has passed only instructions that were scheduled or not ready. */
  ghost predicate Passed(c: Core, i: nat) {
    forall q :: 0 <= q < i && q < |c.rob| && !c.rob[q].scheduled ==> c.rob[q].readyTime > c.cycle
  }

  /** A ready instruction is the first that is not scheduled. */
  lemma ReadyIsFrontier(k: Config, c: Core, i: nat)
    requires Staged(k, c) && Passed(c, i) && i < |c.rob| && CanSchedule(c, i)
    ensures IsFrontier(c.rob, i)
  {
  }

  lemma {:induction false} ScheduleKeepsInv(k: Config, program: seq<TraceInstr>, c: Core, i: nat, searched: int) returns (end: Core)
    requires Inv(k, program, c) && Passed(c, i)
    ensures end == Schedule(k, c, i, searched) && Inv(k, program, end)
    decreases |c.rob| - i
  {
    hide Linked, InOrder, Staged;
    end := c;
    if i < |c.rob| && searched < k.scheduleWidth && Needs(c.regs, c.rob[i]) <= |c.regs.free| {
      var searched' := if c.rob[i].executed then searched else searched + 1;
      if CanSchedule(c, i) {
        ReadyIsFrontier(k, c, i);
        ScheduleOneKeepsInv(k, program, c, i);
        end := ScheduleKeepsInv(k, program, ScheduleOne(c, i), i + 1, searched');
      } else {
        end := ScheduleKeepsInv(k, program, c, i + 1, searched');
      }
    }
  }

  lemma {:induction false} DispatchKeepsInv(k: Config, program: seq<TraceInstr>, c: Core, lsqFull: set<nat>, count: int) returns (end: Core)
    requires Inv(k, program, c)
    ensures end == Dispatch(k, c, lsqFull, count) && Inv(k, program, end)
    decreases k.dispatchWidth - count
  {
    hide Linked, InOrder, Staged;
    end := c;
    if count < k.dispatchWidth && CanDispatch(k, c, lsqFull) {
      DispatchOneKeepsInv(k, program, c);
      end := DispatchKeepsInv(k, program, DispatchOne(k, c), lsqFull, count + 1);
    }
  }

  lemma {:induction false} DecodeKeepsInv(k: Config, program: seq<TraceInstr>, c: Core, count: int) returns (end: Core)
    requires Inv(k, program, c)
    ensures end == Decode(k, c, count) && Inv(k, program, end)
    decreases k.decodeWidth - count
  {
    hide Linked, InOrder, Staged;
    end := c;
    if count < k.decodeWidth && CanDecode(k, c) {
      DecodeOneKeepsInv(k, program, c);
      end := DecodeKeepsInv(k, program, DecodeOne(k, c), count + 1);
    }
  }

  lemma {:induction false} FetchKeepsInv(k: Config, program: seq<TraceInstr>, c: Core, count: int) returns (end: Core)
    requires Inv(k, program, c)
    ensures end == FetchLoop(k, c, program, count) && Inv(k, program, end)
    decreases k.fetchWidth - count
  {
    hide Linked, InOrder, Staged;
    end := c;
    if count < k.fetchWidth && CanFetch(k, c, program) {
      FetchOneKeepsInv(k, program, c);
      end := FetchOne(k, c, program);
      if !program[c.counter].isBranch {
        end := FetchKeepsInv(k, program, end, count + 1);
      }
    }
  }

  lemma NextCycleKeepsStages(k: Config, program: seq<TraceInstr>, c: Core)
    requires InOrder(program, c) && Staged(k, c)
    ensures InOrder(program, c.(cycle := c.cycle + 1)) && Staged(k, c.(cycle := c.cycle + 1))
  {
  }

  lemma NextCycleKeepsInv(k: Config, program: seq<TraceInstr>, c: Core)
    requires Inv(k, program, c)
    ensures Inv(k, program, c.(cycle := c.cycle + 1))
  {
    hide Linked, InOrder, Staged;
    NextCycleKeepsStages(k, program, c);
    OnlyQueuesMoved(program, c, c.(cycle := c.cycle + 1));
  }

  lemma StepKeepsInv(k: Config, program: seq<TraceInstr>, c: Core, e: Event)
    requires Inv(k, program, c)
    ensures Inv(k, program, Step(k, program, c, e))
  {
    hide Linked, InOrder, Staged;
    match e
    case NextCycle => NextCycleKeepsInv(k, program, c);
    case RetireStage => var end := RetireKeepsInv(k, program, c, 0);
    case CompleteStage => var end := CompleteKeepsInv(k, program, c, 0, 0);
    case ExecuteStage => var end := ExecuteKeepsInv(k, program, c, 0, 0);
    case ScheduleStage => var end := ScheduleKeepsInv(k, program, c, 0, 0);
    case DispatchStage(lsqFull) => var end := DispatchKeepsInv(k, program, c, lsqFull, 0);
    case DecodeStage => var end := DecodeKeepsInv(k, program, c, 0);
    case FetchStage => var end := FetchKeepsInv(k, program, c, 0);
    case Response(id) => RespondKeepsInv(k, program, c, id);
  }

  // ------------------------------------------------------------------ whole runs

  lemma {:induction false} RunKeepsInv(k: Config, program: seq<TraceInstr>, c: Core, events: seq<Event>)
    requires Inv(k, program, c)
    ensures Inv(k, program, Run(k, program, c, events))
    decreases |events|
  {
    hide Linked, InOrder, Staged;
    if events != [] {
      StepKeepsInv(k, program, c, events[0]);
      RunKeepsInv(k, program, Step(k, program, c, events[0]), events[1..]);
    }
  }

  lemma {:induction false} CountUp(n: nat, p: int)
    ensures multiset(seq(n, i => i))[p] == Ones(p, n)
  {
    if n > 0 {
      CountUp(n - 1, p);
      assert seq(n, i => i) == seq(n - 1, i => i) + [n - 1];
    }
  }

  lemma {:induction false} NoneOf(n: nat, x: int, p: int)
    requires p != x
    ensures multiset(seq(n, _ => x))[p] == 0
  {
    if n > 0 {
      NoneOf(n - 1, x, p);
      assert seq(n, _ => x) == seq(n - 1, _ => x) + [x];
    }
  }

  lemma InitialInv(k: Config, program: seq<TraceInstr>, numPhysical: nat)
    ensures Inv(k, program, InitialCore(numPhysical))
  {
    var c := InitialCore(numPhysical);
    forall p | p >= 0
      ensures multiset(c.regs.free)[p] + multiset(c.regs.back)[p] + Flight(c.rob)[p] == Ones(p, numPhysical)
    {
      CountUp(numPhysical, p);
      NoneOf(256, INVALID, p);
      assert Parts(c.rob) == [];
    }
  }

  /** Program order. Retired instructions, reorder buffer, decode queue and fetch queue are
      always one contiguous run of instruction ids, so the k-th retired instruction is
      instruction k; scheduled instructions are a prefix of the buffer, although execution
      is out of order. */
  lemma PipelineIsInOrder(k: Config, program: seq<TraceInstr>, numPhysical: nat, events: seq<Event>)
    ensures var c := Run(k, program, InitialCore(numPhysical), events);
            var n := |c.retired|;
            && (forall i :: 0 <= i < n ==> c.retired[i].id == i)
            && (var flow := c.rob + c.decodeQueue + c.fetchQueue;
                n + |flow| == c.counter && forall i :: 0 <= i < |flow| ==> flow[i].id == n + i)
            && (forall p, q :: 0 <= p < q < |c.rob| && c.rob[q].scheduled ==> c.rob[p].scheduled)
  {
    InitialInv(k, program, numPhysical);
    RunKeepsInv(k, program, InitialCore(numPhysical), events);
  }

  /** Conservation. In every reachable state each physical register is in exactly one
      place, once: on the free list, in the back-end table, or a destination in flight. No
      register is freed twice or handed out while it is in use. */
  lemma RegistersAreConserved(k: Config, program: seq<TraceInstr>, numPhysical: nat, events: seq<Event>, reg: nat)
    ensures var c := Run(k, program, InitialCore(numPhysical), events);
            multiset(c.regs.free)[reg] + multiset(c.regs.back)[reg] + Flight(c.rob)[reg] == Ones(reg, |c.regs.file|)
  {
    InitialInv(k, program, numPhysical);
    RunKeepsInv(k, program, InitialCore(numPhysical), events);
  }

  /** Instruction `n` of the program, if it has got as far as the buffer. */
  function Issued(c: Core, n: nat): Instr
    requires n < |c.retired| + |c.rob|
  {
    if n < |c.retired| then c.retired[n] else c.rob[n - |c.retired|]
  }

  /** The register found for `a` at position p is the one that the last earlier writer
      writes, and has its data once that writer has completed; or the committed register, if
      there is no writer. */
  ghost predicate FromTheWriter(program: seq<TraceInstr>, c: Core, p: nat, a: Arch)
    requires c.regs.Ok() && AllDestsKnown(c) && p <= |c.rob|
  {
    var reg, w := Lookup(c.rob, p, a, c.regs.back[a]), LastWriter(program, |c.retired| + p, a);
    if w == None then
      reg == c.regs.back[a] && (reg != INVALID ==> c.regs.file[reg] == PhysicalRegister(a, 0, true, true))
    else
      && Sized(Issued(c, w.value))
      && 0 <= reg < |c.regs.file| && reg == Written(Issued(c, w.value), a)
      && c.regs.file[reg].arch == a && c.regs.file[reg].producer == w.value
      && (c.regs.file[reg].valid <==> w.value < |c.retired| || Issued(c, w.value).completed)
  }

  /** Instruction p writes the register, and is its last writer for the instruction after. */
  lemma NewWriter(program: seq<TraceInstr>, c: Core, p: nat, a: Arch)
    requires c.regs.Ok() && AllDestsKnown(c) && InOrder(program, c) && p < |c.rob|
    requires c.rob[p].scheduled && a in c.rob[p].trace.dests
    ensures FromTheWriter(program, c, p + 1, a)
  {
    var x, other := c.rob[p], Lookup(c.rob, p, a, c.regs.back[a]);
    assert DestsKnown(c.regs, x);
    assert Issued(c, |c.retired| + p) == x && LastWriter(program, |c.retired| + (p + 1), a) == Some(|c.retired| + p);
    NewestIsOneOf(x.trace.dests, x.dests, a, other);
    NewestAgree(x.trace.dests, x.dests, a, other, INVALID);
    var reg := Newest(x.trace.dests, x.dests, a, other);
    assert Lookup(c.rob, p + 1, a, c.regs.back[a]) == reg == Written(x, a);
    assert c.regs.file[reg].arch == a && c.regs.file[reg].producer == x.id && c.regs.file[reg].valid == x.completed;
    assert 0 <= reg < |c.regs.file| && Sized(x);
    hide AllDestsKnown, LastWriter, Newest, Lookup;
  }

  /** Instruction p does not write the register. */
  lemma SameWriter(program: seq<TraceInstr>, c: Core, p: nat, a: Arch)
    requires c.regs.Ok() && AllDestsKnown(c) && InOrder(program, c) && p < |c.rob|
    requires c.rob[p].scheduled && a !in c.rob[p].trace.dests && FromTheWriter(program, c, p, a)
    ensures FromTheWriter(program, c, p + 1, a)
  {
    var x, other := c.rob[p], Lookup(c.rob, p, a, c.regs.back[a]);
    assert DestsKnown(c.regs, x);
    assert LastWriter(program, |c.retired| + p + 1, a) == LastWriter(program, |c.retired| + p, a);
    NewestIsOneOf(x.trace.dests, x.dests, a, other);
    assert Lookup(c.rob, p + 1, a, c.regs.back[a]) == other;
    hide InOrder, AllDestsKnown, LastWriter, Newest, Lookup;
  }

  lemma {:induction false} LookupFindsTheWriter(program: seq<TraceInstr>, c: Core, p: nat, a: Arch)
    requires c.regs.Ok() && AllDestsKnown(c) && InOrder(program, c) && Committed(program, c, a) && p <= |c.rob|
    requires forall q :: 0 <= q < p ==> c.rob[q].scheduled
    ensures FromTheWriter(program, c, p, a)
    decreases p
  {
    if p > 0 {
      hide FromTheWriter, InOrder, AllDestsKnown, Committed;
      LookupFindsTheWriter(program, c, p - 1, a);
      if a in c.rob[p - 1].trace.dests {
        NewWriter(program, c, p - 1, a);
      } else {
        SameWriter(program, c, p - 1, a);
      }
    }
  }

  /** Source operand `j` of the instruction at position `p` names a register that is not free
      and stands for the architectural register the trace asked for. If an instruction before
      it in program order writes that register, it is the newest destination that the last
      such instruction was given for it; and if none does, it is the committed register, which
      has its data. */
  ghost predicate ReadsTheWriter(program: seq<TraceInstr>, c: Core, p: nat, j: nat)
    requires c.regs.Ok() && p < |c.rob| && j < |c.rob[p].srcs|
  {
    && c.rob[p].id == |c.retired| + p < |program| && c.rob[p].trace == program[c.rob[p].id]
    && j < |c.rob[p].trace.srcs|
    && var a, reg := c.rob[p].trace.srcs[j], c.rob[p].srcs[j];
       && 0 <= reg < |c.regs.file| && reg !in c.regs.free && c.regs.file[reg].arch == a
       && match LastWriter(program, c.rob[p].id, a)
          case None => reg == c.regs.back[a] && c.regs.file[reg].valid
          case Some(w) =>
            var x := Issued(c, w);
            && x.id == w && x.trace == program[w]
            && |x.dests| == |program[w].dests| && reg == Newest(program[w].dests, x.dests, a, INVALID)
            && c.regs.file[reg].producer == w
  }

  lemma InvReadsTheWriter(k: Config, program: seq<TraceInstr>, c: Core, p: nat, j: nat)
    requires Inv(k, program, c) && p < |c.rob| && c.rob[p].scheduled && j < |c.rob[p].srcs|
    ensures ReadsTheWriter(program, c, p, j)
  {
    assert SrcsKnown(c, p);
    var a := c.rob[p].trace.srcs[j];
    LookupFindsTheWriter(program, c, p, a);
    LookupIsUsed(c, p, a);
    hide Lookup, Conserved, Newest;
  }

  /** Renaming preserves dataflow: in every reachable state, each source operand of each
      scheduled instruction is the register of its writer in program order, although
      instructions execute out of order. */
  lemma RenamingPreservesDataflow(k: Config, program: seq<TraceInstr>, numPhysical: nat, events: seq<Event>, p: nat, j: nat)
    ensures var c := Run(k, program, InitialCore(numPhysical), events);
            p < |c.rob| && c.rob[p].scheduled && j < |c.rob[p].srcs| ==> ReadsTheWriter(program, c, p, j)
  {
    hide Inv, ReadsTheWriter;
    InitialInv(k, program, numPhysical);
    RunKeepsInv(k, program, InitialCore(numPhysical), events);
    var c := Run(k, program, InitialCore(numPhysical), events);
    if p < |c.rob| && c.rob[p].scheduled && j < |c.rob[p].srcs| {
      InvReadsTheWriter(k, program, c, p, j);
    }
  }

  /** An instruction executes only after all its producers: whatever it reads was never
      written, has retired, or comes from an instruction in the buffer that has completed. */
  lemma ProducersCompleteFirst(k: Config, program: seq<TraceInstr>, numPhysical: nat, events: seq<Event>, p: nat, j: nat)
    ensures var c := Run(k, program, InitialCore(numPhysical), events);
            p < |c.rob| && c.rob[p].executed && j < |c.rob[p].trace.srcs| ==> ProducerIsDone(program, c, p, j)
  {
    hide Inv, ProducerIsDone;
    InitialInv(k, program, numPhysical);
    RunKeepsInv(k, program, InitialCore(numPhysical), events);
    var c := Run(k, program, InitialCore(numPhysical), events);
    if p < |c.rob| && c.rob[p].executed && j < |c.rob[p].trace.srcs| {
      InvOrdersExecution(k, program, c, p, j);
    }
  }

  ghost predicate ProducerIsDone(program: seq<TraceInstr>, c: Core, p: nat, j: nat)
    requires p < |c.rob| && j < |c.rob[p].trace.srcs|
  {
    var w := LastWriter(program, c.rob[p].id, c.rob[p].trace.srcs[j]);
    || w == None || w.value < |c.retired|
    || (|c.retired| <= w.value < |c.retired| + p && c.rob[w.value - |c.retired|].completed)
  }

  lemma InvOrdersExecution(k: Config, program: seq<TraceInstr>, c: Core, p: nat, j: nat)
    requires Inv(k, program, c) && p < |c.rob| && c.rob[p].executed && j < |c.rob[p].trace.srcs|
    ensures ProducerIsDone(program, c, p, j)
  {
    CompletableIsScheduled(k, c, p);
    assert SrcsKnown(c, p);
    LookupFindsTheWriter(program, c, p, c.rob[p].trace.srcs[j]);
    hide Lookup, Conserved, Newest;
  }
}
