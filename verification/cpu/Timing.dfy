/** How instructions move through the core over whole runs (internal/nodes/cpu/champsim/o3_cpu.go):
    one stage at a time, no faster than the latencies allow, and past completion only with
    all their memory responses. */
module Timing {
  import opened Renaming
  import opened Pipeline
  import opened Dataflow
  import opened OutOfOrder
  import opened Stages

  /** All instructions that have been fetched, in program order; an instruction keeps its place
      from the fetch queue to retirement. */
  function Flow(c: Core): seq<Instr> {
    c.retired + c.rob + c.decodeQueue + c.fetchQueue
  }

  const UNFETCHED := 0
  const FETCHED := 1
  const DECODED := 2
  const DISPATCHED := 3
  const SCHEDULED := 4
  const EXECUTED := 5
  const COMPLETED := 6
  const RETIRED := 7

  function InBuffer(x: Instr): nat {
    if x.completed then COMPLETED else if x.executed then EXECUTED else if x.scheduled then SCHEDULED else DISPATCHED
  }

  /** How far instruction n has come. */
  function Progress(c: Core, n: nat): (p: nat)
    ensures p > UNFETCHED <==> n < |Flow(c)|
  {
    if n < |c.retired| then RETIRED
    else if n < |c.retired| + |c.rob| then InBuffer(c.rob[n - |c.retired|])
    else if n < |c.retired| + |c.rob| + |c.decodeQueue| then DECODED
    else if n < |Flow(c)| then FETCHED
    else UNFETCHED
  }

  /** The time an instruction has to spend at a point before it can move on. */
  function Latency(k: Config, p: nat): nat {
    if p == FETCHED then k.fetchLatency
    else if p == DECODED then k.decodeLatency
    else if p == DISPATCHED then k.dispatchLatency
    else if p == EXECUTED then k.executeLatency
    else 0
  }

  predicate Timed(p: nat) {
    p in {FETCHED, DECODED, DISPATCHED, EXECUTED}
  }

  /** The point from which a stage takes instructions. */
  function TakesFrom(e: Event): int {
    match e
    case RetireStage => COMPLETED
    case CompleteStage => EXECUTED
    case ExecuteStage => SCHEDULED
    case ScheduleStage => DISPATCHED
    case DispatchStage(_) => DECODED
    case DecodeStage => FETCHED
    case FetchStage => UNFETCHED
    case NextCycle => -1
    case Response(_) => -1
  }

  /** The response, if it is one, finds instruction n in the buffer. */
  predicate Reaches(c: Core, e: Event, n: nat) {
    e == Response(n) && |c.retired| <= n < |c.retired| + |c.rob|
  }

  /** Instruction n stays where it is, or moves on by one stage, its own. It leaves a point with a
      latency only when that is over, and starts the latency of the point it comes to. It
      counts the responses that find it in the buffer, and completes with enough of them. */
  ghost predicate MovesOn(k: Config, c: Core, e: Event, c': Core, n: nat) {
    var p, p' := Progress(c, n), Progress(c', n);
    && c'.cycle == c.cycle + (if e == NextCycle then 1 else 0)
    && (p' == p || (p' == p + 1 && TakesFrom(e) == p))
    && (p == UNFETCHED && p' == FETCHED ==> Flow(c')[n].memOpsDone == 0 && Flow(c')[n].readyTime == c.cycle + k.fetchLatency)
    && (p > UNFETCHED ==>
          var x, y := Flow(c)[n], Flow(c')[n];
          && y.id == x.id && y.trace == x.trace
          && y.memOpsDone == x.memOpsDone + (if Reaches(c, e, n) then 1 else 0)
          && (p' == p ==> y.readyTime == x.readyTime)
          && (p' == p + 1 && Timed(p) ==> x.readyTime <= c.cycle)
          && (p' == p + 1 && Timed(p') ==> y.readyTime == c.cycle + Latency(k, p'))
          && (p' == p + 1 && p' == COMPLETED ==> x.memOpsDone >= x.trace.memOps))
  }

  /** The buffer has new flags, and the rest of the flow is as it was. */
  lemma OnlyTheBufferMoves(k: Config, c: Core, e: Event, c': Core, n: nat)
    requires e != NextCycle && c' == c.(rob := c'.rob, regs := c'.regs) && |c'.rob| == |c.rob|
    requires forall p :: 0 <= p < |c.rob| ==>
               var x, y := c.rob[p], c'.rob[p];
               && y.id == x.id && y.trace == x.trace
               && y.memOpsDone == x.memOpsDone + (if Reaches(c, e, |c.retired| + p) then 1 else 0)
               && (InBuffer(y) == InBuffer(x) ==> y.readyTime == x.readyTime)
               && (InBuffer(y) == InBuffer(x) || (InBuffer(y) == InBuffer(x) + 1 && TakesFrom(e) == InBuffer(x)))
               && (InBuffer(y) == InBuffer(x) + 1 && Timed(InBuffer(x)) ==> x.readyTime <= c.cycle)
               && (InBuffer(y) == InBuffer(x) + 1 && Timed(InBuffer(y)) ==> y.readyTime == c.cycle + Latency(k, InBuffer(y)))
               && (InBuffer(y) == InBuffer(x) + 1 && InBuffer(y) == COMPLETED ==> x.memOpsDone >= x.trace.memOps)
    ensures MovesOn(k, c, e, c', n)
  {
    hide InBuffer, Latency;
    if |c.retired| <= n < |c.retired| + |c.rob| {
      var p := n - |c.retired|;
      assert n == |c.retired| + p && Flow(c)[n] == c.rob[p] && Flow(c')[n] == c'.rob[p];
    } else if n < |Flow(c)| {
      assert Flow(c')[n] == Flow(c)[n];
    }
  }

  lemma CompleteMoves(k: Config, program: seq<TraceInstr>, c: Core, n: nat)
    requires Inv(k, program, c)
    ensures MovesOn(k, c, CompleteStage, Step(k, program, c, CompleteStage), n)
  {
    assert c.regs.Ok();
    CompleteStageDoes(k, program, c);
    hide CountDue, Step, Inv;
    OnlyTheBufferMoves(k, c, CompleteStage, Step(k, program, c, CompleteStage), n);
  }

  lemma FlagsInOrder(k: Config, program: seq<TraceInstr>, c: Core, p: nat)
    requires Inv(k, program, c) && p < |c.rob|
    ensures c.rob[p].completed ==> c.rob[p].executed
    ensures !c.rob[p].scheduled ==> Untouched(c.rob[p])
  {
  }

  lemma ExecuteMoves(k: Config, program: seq<TraceInstr>, c: Core, n: nat)
    requires Inv(k, program, c)
    ensures MovesOn(k, c, ExecuteStage, Step(k, program, c, ExecuteStage), n)
  {
    assert c.regs.Ok();
    ExecuteStageDoes(k, program, c);
    hide CountDue, Step, Inv, MovesOn;
    forall p | 0 <= p < |c.rob| ensures c.rob[p].completed ==> c.rob[p].executed { FlagsInOrder(k, program, c, p); }
    OnlyTheBufferMoves(k, c, ExecuteStage, Step(k, program, c, ExecuteStage), n);
  }

  lemma ScheduleMoves(k: Config, program: seq<TraceInstr>, c: Core, n: nat)
    requires Inv(k, program, c)
    ensures MovesOn(k, c, ScheduleStage, Step(k, program, c, ScheduleStage), n)
  {
    assert c.regs.Ok();
    var stop := ScheduleStageDoes(k, program, c);
    hide CountDue, Step, Inv, Demand, MovesOn, StopsAt;
    forall p | 0 <= p < |c.rob| ensures !c.rob[p].scheduled ==> Untouched(c.rob[p]) { FlagsInOrder(k, program, c, p); }
    OnlyTheBufferMoves(k, c, ScheduleStage, Step(k, program, c, ScheduleStage), n);
  }

  lemma ResponseMoves(k: Config, program: seq<TraceInstr>, c: Core, id: nat, n: nat)
    requires Inv(k, program, c)
    ensures MovesOn(k, c, Response(id), Step(k, program, c, Response(id)), n)
  {
    assert c.regs.Ok();
    ResponseDoes(k, program, c, id);
    hide Inv, Step, MovesOn;
    OnlyTheBufferMoves(k, c, Response(id), Step(k, program, c, Response(id)), n);
  }

  /** Where the places of the flow are. */
  lemma FlowAt(c: Core, n: nat)
    ensures |Flow(c)| == |c.retired| + |c.rob| + |c.decodeQueue| + |c.fetchQueue|
    ensures n < |Flow(c)| ==>
              Flow(c)[n] ==
              if n < |c.retired| then c.retired[n]
              else if n < |c.retired| + |c.rob| then c.rob[n - |c.retired|]
              else if n < |c.retired| + |c.rob| + |c.decodeQueue| then c.decodeQueue[n - |c.retired| - |c.rob|]
              else c.fetchQueue[n - |c.retired| - |c.rob| - |c.decodeQueue|]
  {
  }

  /** The same instruction, at the same point. */
  lemma StayingMovesOn(k: Config, c: Core, e: Event, c': Core, n: nat)
    requires e != NextCycle && c'.cycle == c.cycle && !Reaches(c, e, n)
    requires Progress(c', n) == Progress(c, n) && (n < |Flow(c)| ==> Flow(c')[n] == Flow(c)[n])
    ensures MovesOn(k, c, e, c', n)
  {
    hide Progress, Flow;
  }

  /** The first m instructions of the buffer have retired. */
  lemma RetiringMovesOn(k: Config, c: Core, m: nat, c': Core, n: nat)
    requires m <= |c.rob| && AllCompleted(c.rob[..m])
    requires c'.rob == c.rob[m..] && c'.retired == c.retired + c.rob[..m] && c'.cycle == c.cycle
    requires c'.decodeQueue == c.decodeQueue && c'.fetchQueue == c.fetchQueue
    ensures MovesOn(k, c, RetireStage, c', n)
  {
    FlowAt(c, n);
    FlowAt(c', n);
    hide Flow;
    if |c.retired| <= n < |c.retired| + m {
      assert c.rob[..m][n - |c.retired|] == c.rob[n - |c.retired|];
    } else {
      hide InBuffer;
      StayingMovesOn(k, c, RetireStage, c', n);
    }
  }

  lemma RetireMoves(k: Config, program: seq<TraceInstr>, c: Core, n: nat)
    requires Inv(k, program, c)
    ensures MovesOn(k, c, RetireStage, Step(k, program, c, RetireStage), n)
  {
    assert c.regs.Ok();
    var m := RetireStageDoes(k, program, c);
    hide Step, Inv, MovesOn;
    RetiringMovesOn(k, c, m, Step(k, program, c, RetireStage), n);
  }

  lemma RestartedAt(s: seq<Instr>, m: nat, readyTime: nat, i: nat)
    requires i < m <= |s|
    ensures Restarted(s, m, readyTime)[i] == s[i].(readyTime := readyTime)
  {
  }

  /** The first m instructions of the decode queue have been dispatched. */
  lemma DispatchingMovesOn(k: Config, c: Core, lsqFull: set<nat>, m: nat, c': Core, n: nat)
    requires m <= |c.decodeQueue| && forall i :: 0 <= i < m ==> Untouched(c.decodeQueue[i]) && c.decodeQueue[i].readyTime <= c.cycle
    requires c'.rob == c.rob + Restarted(c.decodeQueue, m, c.cycle + k.dispatchLatency) && c'.decodeQueue == c.decodeQueue[m..]
    requires c'.retired == c.retired && c'.fetchQueue == c.fetchQueue && c'.cycle == c.cycle
    ensures MovesOn(k, c, DispatchStage(lsqFull), c', n)
  {
    FlowAt(c, n);
    FlowAt(c', n);
    hide Flow;
    if |c.retired| + |c.rob| <= n < |c.retired| + |c.rob| + m {
      var i := n - |c.retired| - |c.rob|;
      RestartedAt(c.decodeQueue, m, c.cycle + k.dispatchLatency, i);
      assert c'.rob[|c.rob| + i] == c.decodeQueue[i].(readyTime := c.cycle + k.dispatchLatency);
    } else {
      hide InBuffer, Untouched;
      StayingMovesOn(k, c, DispatchStage(lsqFull), c', n);
    }
  }

  lemma DispatchMoves(k: Config, program: seq<TraceInstr>, c: Core, lsqFull: set<nat>, n: nat)
    requires Inv(k, program, c)
    ensures MovesOn(k, c, DispatchStage(lsqFull), Step(k, program, c, DispatchStage(lsqFull)), n)
  {
    assert c.regs.Ok();
    var m := DispatchStageDoes(k, program, c, lsqFull);
    assert forall i :: 0 <= i < |c.decodeQueue| ==> Untouched(c.decodeQueue[i]);
    hide Step, Inv, MovesOn, Untouched;
    DispatchingMovesOn(k, c, lsqFull, m, Step(k, program, c, DispatchStage(lsqFull)), n);
  }

  /** The first m instructions of the fetch queue have been decoded. */
  lemma DecodingMovesOn(k: Config, c: Core, m: nat, c': Core, n: nat)
    requires m <= |c.fetchQueue| && forall i :: 0 <= i < m ==> c.fetchQueue[i].readyTime <= c.cycle
    requires c'.decodeQueue == c.decodeQueue + Restarted(c.fetchQueue, m, c.cycle + k.decodeLatency) && c'.fetchQueue == c.fetchQueue[m..]
    requires c'.retired == c.retired && c'.rob == c.rob && c'.cycle == c.cycle
    ensures MovesOn(k, c, DecodeStage, c', n)
  {
    FlowAt(c, n);
    FlowAt(c', n);
    hide Flow, InBuffer;
    var first := |c.retired| + |c.rob| + |c.decodeQueue|;
    if first <= n < first + m {
      var i := n - first;
      RestartedAt(c.fetchQueue, m, c.cycle + k.decodeLatency, i);
      assert c'.decodeQueue[|c.decodeQueue| + i] == c.fetchQueue[i].(readyTime := c.cycle + k.decodeLatency);
    } else {
      StayingMovesOn(k, c, DecodeStage, c', n);
    }
  }

  lemma DecodeMoves(k: Config, program: seq<TraceInstr>, c: Core, n: nat)
    requires Inv(k, program, c)
    ensures MovesOn(k, c, DecodeStage, Step(k, program, c, DecodeStage), n)
  {
    assert c.regs.Ok();
    var m := DecodeStageDoes(k, program, c);
    hide Step, Inv, MovesOn;
    DecodingMovesOn(k, c, m, Step(k, program, c, DecodeStage), n);
  }

  lemma FetchMoves(k: Config, program: seq<TraceInstr>, c: Core, n: nat)
    requires Inv(k, program, c)
    ensures MovesOn(k, c, FetchStage, Step(k, program, c, FetchStage), n)
  {
    assert c.regs.Ok();
    var added := FetchStageDoes(k, program, c);
    hide Step, Inv;
    var c' := Step(k, program, c, FetchStage);
    assert Flow(c') == Flow(c) + added;
  }

  /** Every event moves every instruction by at most one stage. */
  lemma OneStageAtATime(k: Config, program: seq<TraceInstr>, c: Core, e: Event, n: nat)
    requires Inv(k, program, c)
    ensures MovesOn(k, c, e, Step(k, program, c, e), n)
  {
    assert c.regs.Ok();
    hide MovesOn, Inv;
    match e
    case NextCycle => NextCycleMoves(k, program, c, n);
    case RetireStage => RetireMoves(k, program, c, n);
    case CompleteStage => CompleteMoves(k, program, c, n);
    case ExecuteStage => ExecuteMoves(k, program, c, n);
    case ScheduleStage => ScheduleMoves(k, program, c, n);
    case DispatchStage(lsqFull) => DispatchMoves(k, program, c, lsqFull, n);
    case DecodeStage => DecodeMoves(k, program, c, n);
    case FetchStage => FetchMoves(k, program, c, n);
    case Response(id) => ResponseMoves(k, program, c, id, n);
  }

  lemma NextCycleMoves(k: Config, program: seq<TraceInstr>, c: Core, n: nat)
    requires c.regs.Ok()
    ensures MovesOn(k, c, NextCycle, Step(k, program, c, NextCycle), n)
  {
  }

  // ------------------------------------------------------------------ whole runs

  /** Instruction n has not got to point p; or is there, and will not be due before the latency
      has passed since cycle t; or has passed it, and so has the latency. */
  ghost predicate NoEarlier(k: Config, c: Core, n: nat, p: nat, t: nat) {
    && t <= c.cycle
    && (Progress(c, n) == p && p > UNFETCHED ==> t + Latency(k, p) <= Flow(c)[n].readyTime)
    && (Progress(c, n) > p ==> t + Latency(k, p) <= c.cycle)
  }

  lemma StepIsNoEarlier(k: Config, c: Core, e: Event, c': Core, n: nat, p: nat, t: nat)
    requires Timed(p) && NoEarlier(k, c, n, p, t) && MovesOn(k, c, e, c', n)
    ensures NoEarlier(k, c', n, p, t)
  {
    hide Flow, Progress;
  }

  lemma {:induction false} RunIsNoEarlier(k: Config, program: seq<TraceInstr>, c: Core, events: seq<Event>, n: nat, p: nat, t: nat)
    requires Inv(k, program, c) && Timed(p) && NoEarlier(k, c, n, p, t)
    ensures NoEarlier(k, Run(k, program, c, events), n, p, t)
    decreases |events|
  {
    assert c.regs.Ok();
    if events != [] {
      hide Inv, NoEarlier, MovesOn, Step;
      var c' := Step(k, program, c, events[0]);
      OneStageAtATime(k, program, c, events[0], n);
      StepKeepsInv(k, program, c, events[0]);
      StepIsNoEarlier(k, c, events[0], c', n, p, t);
      RunIsNoEarlier(k, program, c', events[1..], n, p, t);
    }
  }

  /** Latencies are kept. In every run, an instruction that had not been fetched, decoded,
      dispatched or executed at some time is past that point no earlier than the latency of
      the point after that time. */
  lemma LatenciesAreKept(k: Config, program: seq<TraceInstr>, numPhysical: nat, before: seq<Event>, after: seq<Event>, n: nat, p: nat)
    requires Timed(p)
    ensures var c := Run(k, program, InitialCore(numPhysical), before);
            var c' := Run(k, program, c, after);
            Progress(c, n) < p < Progress(c', n) ==> c.cycle + Latency(k, p) <= c'.cycle
  {
    InitialInv(k, program, numPhysical);
    RunKeepsInv(k, program, InitialCore(numPhysical), before);
    var c := Run(k, program, InitialCore(numPhysical), before);
    hide Inv, Run, Flow, Progress;
    if Progress(c, n) < p {
      RunIsNoEarlier(k, program, c, after, n, p, c.cycle);
    }
  }

  /** Responses that have found instruction n in the buffer. */
  function Answers(k: Config, program: seq<TraceInstr>, c: Core, events: seq<Event>, n: nat): nat
    requires c.regs.Ok()
    decreases |events|
  {
    if events == [] then 0
    else (if Reaches(c, events[0], n) then 1 else 0) + Answers(k, program, Step(k, program, c, events[0]), events[1..], n)
  }

  ghost predicate Awaited(c: Core, n: nat, answered: nat) {
    var p := Progress(c, n);
    && (p == UNFETCHED ==> answered == 0)
    && (p > UNFETCHED ==> Flow(c)[n].memOpsDone == answered)
    && (p >= COMPLETED ==> answered >= Flow(c)[n].trace.memOps)
  }

  lemma {:induction false} RunAwaits(k: Config, program: seq<TraceInstr>, c: Core, events: seq<Event>, n: nat, answered: nat)
    requires c.regs.Ok() && Inv(k, program, c) && Awaited(c, n, answered)
    ensures Awaited(Run(k, program, c, events), n, answered + Answers(k, program, c, events, n))
    decreases |events|
  {
    hide Inv, Awaited, MovesOn, Step, Reaches;
    if events != [] {
      var c' := Step(k, program, c, events[0]);
      OneStageAtATime(k, program, c, events[0], n);
      StepKeepsInv(k, program, c, events[0]);
      StepAwaits(k, c, events[0], c', n, answered);
      RunAwaits(k, program, c', events[1..], n, answered + if Reaches(c, events[0], n) then 1 else 0);
    }
  }

  lemma StepAwaits(k: Config, c: Core, e: Event, c': Core, n: nat, answered: nat)
    requires Awaited(c, n, answered) && MovesOn(k, c, e, c', n)
    ensures Awaited(c', n, answered + if Reaches(c, e, n) then 1 else 0)
  {
  }

  lemma FlowIsTheProgram(k: Config, program: seq<TraceInstr>, c: Core, n: nat)
    requires Inv(k, program, c) && n < |Flow(c)|
    ensures n < |program| && Flow(c)[n].id == n && Flow(c)[n].trace == program[n]
  {
    hide Linked, Staged;
  }

  /** Memory is awaited. In every run, an instruction has counted exactly the responses that
      found it in the buffer, and has completed or retired only with one for each of its
      memory operations. */
  lemma MemoryIsAwaited(k: Config, program: seq<TraceInstr>, numPhysical: nat, events: seq<Event>, n: nat)
    ensures var c := Run(k, program, InitialCore(numPhysical), events);
            n < |Flow(c)| ==>
              && n < |program| && Flow(c)[n].id == n
              && Flow(c)[n].memOpsDone == Answers(k, program, InitialCore(numPhysical), events, n)
              && (Progress(c, n) >= COMPLETED ==> Flow(c)[n].memOpsDone >= program[n].memOps)
  {
    hide Inv, Run, Answers, Flow, Progress;
    InitialInv(k, program, numPhysical);
    RunKeepsInv(k, program, InitialCore(numPhysical), events);
    InitialAwaits(numPhysical, n);
    RunAwaits(k, program, InitialCore(numPhysical), events, n, 0);
    var c := Run(k, program, InitialCore(numPhysical), events);
    if n < |Flow(c)| {
      FlowIsTheProgram(k, program, c, n);
    }
  }

  lemma InitialAwaits(numPhysical: nat, n: nat)
    ensures Awaited(InitialCore(numPhysical), n, 0)
  {
  }

  // ------------------------------------------------------------------ one tick

  /** Each stage takes from an earlier point than the stages before it. */
  predicate Backwards(events: seq<Event>) {
    forall i, j :: 0 <= i < j < |events| && TakesFrom(events[i]) >= 0 ==> TakesFrom(events[j]) < TakesFrom(events[i])
  }

  lemma {:induction false} OnceIsEnough(k: Config, program: seq<TraceInstr>, c: Core, events: seq<Event>, n: nat, moved: bool)
    requires Inv(k, program, c) && Backwards(events)
    requires moved ==> forall i :: 0 <= i < |events| ==> TakesFrom(events[i]) < Progress(c, n)
    ensures Progress(c, n) <= Progress(Run(k, program, c, events), n) <= Progress(c, n) + if moved then 0 else 1
    decreases |events|
  {
    assert c.regs.Ok();
    if events != [] {
      var c' := Step(k, program, c, events[0]);
      OneStageAtATime(k, program, c, events[0], n);
      StepKeepsInv(k, program, c, events[0]);
      var moves := Progress(c', n) != Progress(c, n);
      assert Progress(c', n) == Progress(c, n) + (if moves then 1 else 0) && (moves ==> TakesFrom(events[0]) == Progress(c, n) && !moved);
      hide Inv, Step, MovesOn, Progress, TakesFrom;
      OnceIsEnough(k, program, c', events[1..], n, moved || moves);
    }
  }

  /** The stages of a tick run against the flow, so that in one tick every instruction moves on by
      at most one stage, even where all latencies are 0. */
  lemma OneStageATick(k: Config, program: seq<TraceInstr>, numPhysical: nat, events: seq<Event>,
                      lsqFull: set<nat>, arrived: seq<Event>, immediate: seq<Event>, n: nat)
    requires forall i :: 0 <= i < |arrived| ==> arrived[i].Response?
    requires forall i :: 0 <= i < |immediate| ==> immediate[i].Response?
    ensures var c := Run(k, program, InitialCore(numPhysical), events);
            var c' := Run(k, program, c, TickEvents(lsqFull, arrived, immediate));
            Progress(c, n) <= Progress(c', n) <= Progress(c, n) + 1
  {
    InitialInv(k, program, numPhysical);
    RunKeepsInv(k, program, InitialCore(numPhysical), events);
    TicksAreBackwards(lsqFull, arrived, immediate);
    hide Inv, Progress, Run, TickEvents, Backwards;
    OnceIsEnough(k, program, Run(k, program, InitialCore(numPhysical), events), TickEvents(lsqFull, arrived, immediate), n, false);
  }

  lemma TicksAreBackwards(lsqFull: set<nat>, arrived: seq<Event>, immediate: seq<Event>)
    requires forall i :: 0 <= i < |arrived| ==> arrived[i].Response?
    requires forall i :: 0 <= i < |immediate| ==> immediate[i].Response?
    ensures Backwards(TickEvents(lsqFull, arrived, immediate))
  {
    var last := [ScheduleStage, DispatchStage(lsqFull), DecodeStage, FetchStage];
    var middle := [CompleteStage, ExecuteStage];
    JoinedBackwards([NextCycle, RetireStage], arrived, COMPLETED);
    JoinedBackwards([NextCycle, RetireStage] + arrived, middle, COMPLETED);
    JoinedBackwards([NextCycle, RetireStage] + arrived + middle, immediate, SCHEDULED);
    JoinedBackwards([NextCycle, RetireStage] + arrived + middle + immediate, last, SCHEDULED);
  }

  lemma JoinedBackwards(s: seq<Event>, t: seq<Event>, p: nat)
    requires Backwards(s) && Backwards(t)
    requires forall i :: 0 <= i < |s| ==> TakesFrom(s[i]) < 0 || TakesFrom(s[i]) >= p
    requires forall i :: 0 <= i < |t| ==> TakesFrom(t[i]) < p
    ensures Backwards(s + t)
  {
  }
}
