/** What each stage of the pipeline does (internal/nodes/cpu/champsim/o3_cpu.go), stated on the
    buffer and the queues before and after it, with no loop: which instructions move on,
    which do not, and why the stage stops where it does. */
module Stages {
  import opened Renaming
  import opened Pipeline
  import opened Dataflow
  import opened OutOfOrder

  // ------------------------------------------------ the first few that are due

  function CountDue(due: Instr -> bool, s: seq<Instr>): (n: nat)
    ensures n <= |s|
  {
    if s == [] then 0 else CountDue(due, s[..|s| - 1]) + if due(s[|s| - 1]) then 1 else 0
  }

  /** The instruction at position i is due, and one of the first `width` that are. */
  predicate Chosen(due: Instr -> bool, width: int, rob: seq<Instr>, i: nat)
    requires i < |rob|
  {
    due(rob[i]) && CountDue(due, rob[..i]) < width
  }

  lemma {:induction false} CountAgrees(due: Instr -> bool, s: seq<Instr>, t: seq<Instr>)
    requires |s| == |t| && forall i :: 0 <= i < |s| ==> due(s[i]) == due(t[i])
    ensures CountDue(due, s) == CountDue(due, t)
    decreases |s|
  {
    if s != [] {
      CountAgrees(due, s[..|s| - 1], t[..|t| - 1]);
    }
  }

  lemma CountOneMore(due: Instr -> bool, rob: seq<Instr>, i: nat)
    requires i < |rob|
    ensures CountDue(due, rob[..i + 1]) == CountDue(due, rob[..i]) + if due(rob[i]) then 1 else 0
  {
    assert rob[..i + 1][..i] == rob[..i];
  }

  lemma {:induction false} CountGrows(due: Instr -> bool, rob: seq<Instr>, i: nat, j: nat)
    requires i <= j <= |rob|
    ensures CountDue(due, rob[..i]) <= CountDue(due, rob[..j])
    decreases j - i
  {
    if i < j {
      CountOneMore(due, rob, j - 1);
      CountGrows(due, rob, i, j - 1);
    }
  }

  // ------------------------------------------------ complete

  /** Executed, due, and answered by memory as often as it has to be. */
  function ToComplete(cycle: nat): Instr -> bool {
    (x: Instr) => x.executed && !x.completed && x.readyTime <= cycle && x.memOpsDone >= x.trace.memOps
  }

  /** The loop from position i on, with `count` instructions completed before it. */
  lemma {:induction false} CompleteFrom(k: Config, c: Core, i: nat, count: nat, rob: seq<Instr>)
    requires c.regs.Ok() && i <= |c.rob| == |rob| && count <= k.executeWidth
    requires forall p :: i <= p < |rob| ==> c.rob[p] == rob[p]
    requires count == if CountDue(ToComplete(c.cycle), rob[..i]) < k.executeWidth then CountDue(ToComplete(c.cycle), rob[..i]) else k.executeWidth
    ensures var c' := Complete(k, c, i, count);
            && c' == c.(rob := c'.rob, regs := c'.regs) && |c'.rob| == |rob|
            && (forall p :: 0 <= p < i ==> c'.rob[p] == c.rob[p])
            && forall p :: i <= p < |rob| ==>
                 c'.rob[p] == if Chosen(ToComplete(c.cycle), k.executeWidth, rob, p) then rob[p].(completed := true) else rob[p]
    decreases |rob| - i
  {
    var due := ToComplete(c.cycle);
    if i < |rob| {
      CountOneMore(due, rob, i);
      if count < k.executeWidth {
        if CanComplete(c, i) {
          CompleteFrom(k, CompleteOne(c, i), i + 1, count + 1, rob);
        } else {
          CompleteFrom(k, c, i + 1, count, rob);
        }
      } else {
        forall p | i <= p < |rob| ensures !Chosen(due, k.executeWidth, rob, p) { CountGrows(due, rob, i, p); }
      }
    }
  }

  /** The stage completes the first `executeWidth` instructions that have executed, are due
      and have all their responses; and does nothing else but mark their destinations. */
  lemma CompleteStageDoes(k: Config, program: seq<TraceInstr>, c: Core)
    requires c.regs.Ok()
    ensures var c' := Step(k, program, c, CompleteStage);
            && c' == c.(rob := c'.rob, regs := c'.regs) && |c'.rob| == |c.rob|
            && forall p :: 0 <= p < |c.rob| ==>
                 c'.rob[p] == if Chosen(ToComplete(c.cycle), k.executeWidth, c.rob, p) then c.rob[p].(completed := true) else c.rob[p]
  {
    if k.executeWidth >= 0 {
      CompleteFrom(k, c, 0, 0, c.rob);
    }
  }

  // ------------------------------------------------ execute

  /** Scheduled, due, and with the data of every source operand. */
  function ToExecute(r: Regs, cycle: nat): Instr -> bool {
    (x: Instr) =>
      && x.scheduled && !x.executed && x.readyTime <= cycle
      && forall j :: 0 <= j < |x.srcs| && x.srcs[j] >= 0 ==> r.IsValid(x.srcs[j])
  }

  lemma ExecutableIsDue(c: Core, i: nat)
    requires i < |c.rob|
    ensures CanExecute(c, i) == ToExecute(c.regs, c.cycle)(c.rob[i])
  {
    NoDependencies(c.regs, c.rob[i].srcs);
  }

  function Executed(k: Config, cycle: nat, x: Instr): Instr {
    x.(executed := true, readyTime := cycle + k.executeLatency)
  }

  lemma {:induction false} ExecuteFrom(k: Config, c: Core, i: nat, count: nat, rob: seq<Instr>)
    requires i <= |c.rob| == |rob| && count <= k.executeWidth
    requires forall p :: i <= p < |rob| ==> c.rob[p] == rob[p]
    requires var due := CountDue(ToExecute(c.regs, c.cycle), rob[..i]);
             count == if due < k.executeWidth then due else k.executeWidth
    ensures var c' := Execute(k, c, i, count);
            && c' == c.(rob := c'.rob) && |c'.rob| == |rob|
            && (forall p :: 0 <= p < i ==> c'.rob[p] == c.rob[p])
            && forall p :: i <= p < |rob| ==>
                 c'.rob[p] == if Chosen(ToExecute(c.regs, c.cycle), k.executeWidth, rob, p) then Executed(k, c.cycle, rob[p]) else rob[p]
    decreases |rob| - i
  {
    var due := ToExecute(c.regs, c.cycle);
    hide ToExecute, CanExecute, Executed;
    if i < |rob| {
      CountOneMore(due, rob, i);
      ExecutableIsDue(c, i);
      if count < k.executeWidth {
        if CanExecute(c, i) {
          ExecuteFrom(k, ExecuteOne(k, c, i), i + 1, count + 1, rob);
          assert ExecuteOne(k, c, i).rob[i] == Executed(k, c.cycle, rob[i]) by { ExecutedIs(k, c, i); }
        } else {
          ExecuteFrom(k, c, i + 1, count, rob);
        }
      } else {
        forall p | i <= p < |rob| ensures !Chosen(due, k.executeWidth, rob, p) { CountGrows(due, rob, i, p); }
      }
    }
  }

  lemma ExecutedIs(k: Config, c: Core, i: nat)
    requires i < |c.rob|
    ensures ExecuteOne(k, c, i).rob[i] == Executed(k, c.cycle, c.rob[i])
  {
  }

  /** The stage executes the first `executeWidth` instructions that are scheduled, due and have
      their operands, and starts their latency; and does nothing else. */
  lemma ExecuteStageDoes(k: Config, program: seq<TraceInstr>, c: Core)
    requires c.regs.Ok()
    ensures var c' := Step(k, program, c, ExecuteStage);
            && c' == c.(rob := c'.rob) && |c'.rob| == |c.rob|
            && forall p :: 0 <= p < |c.rob| ==>
                 c'.rob[p] == if Chosen(ToExecute(c.regs, c.cycle), k.executeWidth, c.rob, p)
                              then Executed(k, c.cycle, c.rob[p]) else c.rob[p]
  {
    hide ToExecute, Executed;
    if k.executeWidth >= 0 {
      ExecuteFrom(k, c, 0, 0, c.rob);
    }
  }

  // ------------------------------------------------ retire

  predicate AllCompleted(s: seq<Instr>) {
    forall i :: 0 <= i < |s| ==> s[i].completed
  }

  lemma HeadMoves(retired: seq<Instr>, rob: seq<Instr>, rest: nat)
    requires rest < |rob|
    ensures rob[1..][rest..] == rob[rest + 1..] && rob[..rest + 1] == [rob[0]] + rob[1..][..rest]
    ensures (retired + [rob[0]]) + rob[1..][..rest] == retired + rob[..rest + 1]
  {
  }

  lemma {:induction false} RetireFrom(k: Config, c: Core, count: nat) returns (m: nat)
    requires c.regs.Ok() && forall p :: 0 <= p < |c.rob| ==> !c.rob[p].mispredicted
    ensures var c' := Retire(k, c, count);
            && m <= |c.rob| && AllCompleted(c.rob[..m])
            && c' == c.(rob := c.rob[m..], retired := c.retired + c.rob[..m], regs := c'.regs)
            && (m == 0 || count + m <= k.retireWidth)
            && (count + m >= k.retireWidth || m == |c.rob| || !c.rob[m].completed)
    decreases k.retireWidth - count
  {
    m := 0;
    if count < k.retireWidth && CanRetire(c) {
      var rest := RetireFrom(k, RetireOne(c), count + 1);
      m := rest + 1;
      HeadMoves(c.retired, c.rob, rest);
    }
  }

  /** The stage retires the completed instructions at the head of the buffer, in order, up to
      `retireWidth` of them; and nothing else moves. */
  lemma RetireStageDoes(k: Config, program: seq<TraceInstr>, c: Core) returns (m: nat)
    requires Inv(k, program, c)
    ensures var c' := Step(k, program, c, RetireStage);
            && m <= |c.rob| && AllCompleted(c.rob[..m])
            && c' == c.(rob := c.rob[m..], retired := c.retired + c.rob[..m], regs := c'.regs)
            && (m == 0 || m <= k.retireWidth)
            && (m >= k.retireWidth || m == |c.rob| || !c.rob[m].completed)
  {
    m := RetireFrom(k, c, 0);
  }

  // ------------------------------------------------ schedule

  function NotExecuted(): Instr -> bool {
    (x: Instr) => !x.executed
  }

  /** Not scheduled, and due. */
  predicate ToSchedule(x: Instr, cycle: nat) {
    !x.scheduled && x.readyTime <= cycle
  }

  /** `y` is `x` with renamed operands. */
  predicate RenamedFrom(x: Instr, y: Instr) {
    y == x.(srcs := y.srcs, dests := y.dests, scheduled := true) && |y.srcs| == |x.srcs| && |y.dests| == |x.dests|
  }

  function Unmapped(r: Regs, srcs: seq<int>): set<int>
    requires r.Ok()
  {
    set j | 0 <= j < |srcs| && srcs[j] >= 0 && r.front[Uint8(srcs[j])] == INVALID
  }

  /** Free registers that scheduling the instruction may take: one for each source operand
      without a mapping, and one for each destination. */
  function Demand(r: Regs, x: Instr): nat
    requires r.Ok()
  {
    |Unmapped(r, x.srcs)| + |set j | 0 <= j < |x.dests| && x.dests[j] >= 0|
  }

  lemma UnmappedLast(r: Regs, srcs: seq<int>, n: nat)
    requires r.Ok() && n + 1 == |srcs|
    ensures var takes := srcs[n] >= 0 && r.front[Uint8(srcs[n])] == INVALID;
            Unmapped(r, srcs) == Unmapped(r, srcs[..n]) + (if takes then {n} else {}) && n !in Unmapped(r, srcs[..n])
  {
  }

  lemma {:induction false} UnallocatedIsCount(r: Regs, srcs: seq<int>)
    requires r.Ok()
    ensures Unallocated(r, srcs) == |Unmapped(r, srcs)|
    decreases |srcs|
  {
    if srcs == [] {
      assert Unmapped(r, srcs) == {};
    } else {
      UnmappedLast(r, srcs, |srcs| - 1);
      hide Unmapped;
      UnallocatedIsCount(r, srcs[..|srcs| - 1]);
    }
  }

  lemma {:induction false} CountValidIsCount(regs: seq<int>)
    ensures CountValid(regs) == |set j | 0 <= j < |regs| && regs[j] >= 0|
    decreases |regs|
  {
    var all := set j | 0 <= j < |regs| && regs[j] >= 0;
    if regs == [] {
      assert all == {};
    } else {
      var n := |regs| - 1;
      CountValidIsCount(regs[..n]);
      var before := set j | 0 <= j < |regs[..n]| && regs[..n][j] >= 0;
      assert all == before + if regs[n] >= 0 then {n} else {};
    }
  }

  lemma NeedsIsDemand(r: Regs, x: Instr)
    requires r.Ok()
    ensures Needs(r, x) == Demand(r, x)
  {
    UnallocatedIsCount(r, x.srcs);
    CountValidIsCount(x.dests);
  }

  /** Scheduling from position i on, up to position `stop`. */
  ghost predicate SchedulesTo(k: Config, c: Core, i: nat, stop: nat, c': Core)
    requires c'.regs.Ok()
  {
    && i <= stop <= |c.rob| == |c'.rob| && c' == c.(rob := c'.rob, regs := c'.regs)
    && (forall p :: 0 <= p < |c.rob| ==>
          if i <= p < stop && ToSchedule(c.rob[p], c.cycle) then RenamedFrom(c.rob[p], c'.rob[p]) else c'.rob[p] == c.rob[p])
  }

  /** One instruction, and the rest from the next position on. */
  lemma SchedulingGoesOn(k: Config, c: Core, i: nat, c1: Core, stop: nat, c': Core)
    requires c.regs.Ok() && c1.regs.Ok() && c'.regs.Ok() && i < |c.rob| == |c1.rob| && SchedulesTo(k, c1, i + 1, stop, c')
    requires c1 == c.(rob := c1.rob, regs := c1.regs)
    requires forall p :: 0 <= p < |c.rob| && p != i ==> c1.rob[p] == c.rob[p]
    requires if ToSchedule(c.rob[i], c.cycle) then RenamedFrom(c.rob[i], c1.rob[i]) else c1.rob[i] == c.rob[i]
    ensures SchedulesTo(k, c, i, stop, c') && i < stop <= |c.rob| == |c'.rob|
  {
    hide ToSchedule, RenamedFrom;
  }

  /** The state after the instruction at position i, in the loop. */
  function AfterLooking(c: Core, i: nat): (c1: Core)
    requires c.regs.Ok() && i < |c.rob| && Needs(c.regs, c.rob[i]) <= |c.regs.free|
    ensures c1.regs.Ok()
  {
    if CanSchedule(c, i) then ScheduleOne(c, i) else c
  }

  lemma LookingAt(k: Config, c: Core, i: nat, searched: nat)
    requires c.regs.Ok() && i < |c.rob| && searched < k.scheduleWidth && Needs(c.regs, c.rob[i]) <= |c.regs.free|
    ensures var c1 := AfterLooking(c, i);
            && Schedule(k, c, i, searched) == Schedule(k, c1, i + 1, if c.rob[i].executed then searched else searched + 1)
            && c1 == c.(rob := c1.rob, regs := c1.regs) && |c1.rob| == |c.rob|
            && (forall p :: 0 <= p < |c.rob| && p != i ==> c1.rob[p] == c.rob[p])
            && (forall p :: 0 <= p < |c.rob| ==> c1.rob[p].executed == c.rob[p].executed)
            && if ToSchedule(c.rob[i], c.cycle) then RenamedFrom(c.rob[i], c1.rob[i]) else c1.rob[i] == c.rob[i]
  {
    ScheduledIs(c, i);
    hide Needs, ScheduleOne;
  }

  /** Where the loop stops, and where it does not: at the end, behind enough instructions that
      have not executed, or for lack of free registers. */
  ghost predicate StopsAt(k: Config, rob: seq<Instr>, i: nat, stop: nat, c': Core)
    requires c'.regs.Ok() && stop <= |rob| == |c'.rob|
  {
    && (forall p :: i <= p < stop ==> CountDue(NotExecuted(), rob[..p]) < k.scheduleWidth)
    && (stop == |rob| || CountDue(NotExecuted(), rob[..stop]) >= k.scheduleWidth
        || |c'.regs.free| < Demand(c'.regs, c'.rob[stop]))
  }

  lemma OneMoreBefore(k: Config, rob: seq<Instr>, i: nat, stop: nat, c': Core)
    requires c'.regs.Ok() && i < stop <= |rob| == |c'.rob| && StopsAt(k, rob, i + 1, stop, c')
    requires CountDue(NotExecuted(), rob[..i]) < k.scheduleWidth
    ensures StopsAt(k, rob, i, stop, c')
  {
  }

  lemma {:induction false} ScheduleFrom(k: Config, c: Core, i: nat, searched: nat, rob: seq<Instr>) returns (stop: nat)
    requires c.regs.Ok() && i <= |c.rob| == |rob| && searched == CountDue(NotExecuted(), rob[..i])
    requires forall p :: 0 <= p < |rob| ==> c.rob[p].executed == rob[p].executed
    ensures SchedulesTo(k, c, i, stop, Schedule(k, c, i, searched))
    ensures StopsAt(k, rob, i, stop, Schedule(k, c, i, searched))
    decreases |rob| - i
  {
    stop := i;
    if i < |rob| {
      NeedsIsDemand(c.regs, c.rob[i]);
      if searched < k.scheduleWidth && Needs(c.regs, c.rob[i]) <= |c.regs.free| {
        LookingAt(k, c, i, searched);
        CountOneMore(NotExecuted(), rob, i);
        hide Demand, Needs, RenamedFrom, ToSchedule, AfterLooking, CountDue, StopsAt, SchedulesTo, Schedule;
        stop := ScheduleFrom(k, AfterLooking(c, i), i + 1, if c.rob[i].executed then searched else searched + 1, rob);
        SchedulingGoesOn(k, c, i, AfterLooking(c, i), stop, Schedule(k, c, i, searched));
        OneMoreBefore(k, rob, i, stop, Schedule(k, c, i, searched));
      }
    }
  }

  lemma ScheduledIs(c: Core, i: nat)
    requires c.regs.Ok() && i < |c.rob|
    ensures CanSchedule(c, i) == ToSchedule(c.rob[i], c.cycle)
    ensures Needs(c.regs, c.rob[i]) <= |c.regs.free| ==>
              var c' := ScheduleOne(c, i);
              && c' == c.(rob := c'.rob, regs := c'.regs) && |c'.rob| == |c.rob| && RenamedFrom(c.rob[i], c'.rob[i])
              && forall p :: 0 <= p < |c.rob| && p != i ==> c'.rob[p] == c.rob[p]
  {
  }

  /** The stage looks through the buffer from its head and schedules what is due and not yet
      scheduled. It stops at the end, where `scheduleWidth` instructions that have not executed
      lie before, or at an instruction for which there are too few free registers. */
  lemma ScheduleStageDoes(k: Config, program: seq<TraceInstr>, c: Core) returns (stop: nat)
    requires c.regs.Ok()
    ensures var c' := Step(k, program, c, ScheduleStage);
            SchedulesTo(k, c, 0, stop, c') && StopsAt(k, c.rob, 0, stop, c')
  {
    stop := ScheduleFrom(k, c, 0, 0, c.rob);
  }

  // ------------------------------------------------ dispatch and decode

  /** The first m instructions of a queue with a new ready time. */
  function Restarted(s: seq<Instr>, m: nat, readyTime: nat): seq<Instr>
    requires m <= |s|
  {
    seq(m, i requires 0 <= i < m => s[i].(readyTime := readyTime))
  }

  /** An instruction that dispatch may take: due, and with room in the load/store queue. */
  predicate ToDispatch(x: Instr, cycle: nat, lsqFull: set<nat>) {
    x.readyTime <= cycle && x.id !in lsqFull
  }

  lemma {:induction false} DispatchFrom(k: Config, c: Core, lsqFull: set<nat>, count: nat) returns (m: nat)
    ensures var c' := Dispatch(k, c, lsqFull, count);
            && m <= |c.decodeQueue|
            && c' == c.(rob := c.rob + Restarted(c.decodeQueue, m, c.cycle + k.dispatchLatency), decodeQueue := c.decodeQueue[m..])
            && (forall i :: 0 <= i < m ==> ToDispatch(c.decodeQueue[i], c.cycle, lsqFull))
            && (m == 0 || (count + m <= k.dispatchWidth && |c.rob| + m <= k.robSize))
            && (count + m >= k.dispatchWidth || m == |c.decodeQueue| || |c.rob| + m >= k.robSize
                || !ToDispatch(c.decodeQueue[m], c.cycle, lsqFull))
    decreases k.dispatchWidth - count
  {
    m := 0;
    var readyTime := c.cycle + k.dispatchLatency;
    if count < k.dispatchWidth && CanDispatch(k, c, lsqFull) {
      var d := DispatchOne(k, c);
      var rest := DispatchFrom(k, d, lsqFull, count + 1);
      m := rest + 1;
      assert c.decodeQueue[1..][rest..] == c.decodeQueue[m..];
      assert Restarted(c.decodeQueue, m, readyTime) == [d.rob[|c.rob|]] + Restarted(d.decodeQueue, rest, readyTime);
      assert d.rob + Restarted(d.decodeQueue, rest, readyTime) == c.rob + Restarted(c.decodeQueue, m, readyTime);
      forall i | 0 <= i < m ensures ToDispatch(c.decodeQueue[i], c.cycle, lsqFull) {
        if i > 0 { assert c.decodeQueue[i] == d.decodeQueue[i - 1]; }
      }
    } else {
      assert c.rob + Restarted(c.decodeQueue, 0, readyTime) == c.rob;
    }
  }

  /** The stage moves instructions from the front of the decode queue to the end of the buffer,
      in order, and starts their latency. It stops at its width, at the end of the queue, at a
      full buffer, or at an instruction that is not due or finds the load/store queue full. */
  lemma DispatchStageDoes(k: Config, program: seq<TraceInstr>, c: Core, lsqFull: set<nat>) returns (m: nat)
    requires c.regs.Ok()
    ensures var c' := Step(k, program, c, DispatchStage(lsqFull));
            && m <= |c.decodeQueue|
            && c' == c.(rob := c.rob + Restarted(c.decodeQueue, m, c.cycle + k.dispatchLatency), decodeQueue := c.decodeQueue[m..])
            && (forall i :: 0 <= i < m ==> ToDispatch(c.decodeQueue[i], c.cycle, lsqFull))
            && (m == 0 || (m <= k.dispatchWidth && |c.rob| + m <= k.robSize))
            && (m >= k.dispatchWidth || m == |c.decodeQueue| || |c.rob| + m >= k.robSize
                || !ToDispatch(c.decodeQueue[m], c.cycle, lsqFull))
  {
    m := DispatchFrom(k, c, lsqFull, 0);
  }

  lemma {:induction false} DecodeFrom(k: Config, c: Core, count: nat) returns (m: nat)
    ensures var c' := Decode(k, c, count);
            && m <= |c.fetchQueue|
            && c' == c.(decodeQueue := c.decodeQueue + Restarted(c.fetchQueue, m, c.cycle + k.decodeLatency), fetchQueue := c.fetchQueue[m..])
            && (forall i :: 0 <= i < m ==> c.fetchQueue[i].readyTime <= c.cycle)
            && (m == 0 || (count + m <= k.decodeWidth && |c.decodeQueue| + m <= k.decodeQueueSize))
            && (count + m >= k.decodeWidth || m == |c.fetchQueue| || |c.decodeQueue| + m >= k.decodeQueueSize
                || c.fetchQueue[m].readyTime > c.cycle)
    decreases k.decodeWidth - count
  {
    m := 0;
    var readyTime := c.cycle + k.decodeLatency;
    if count < k.decodeWidth && CanDecode(k, c) {
      var d := DecodeOne(k, c);
      var rest := DecodeFrom(k, d, count + 1);
      m := rest + 1;
      assert c.fetchQueue[1..][rest..] == c.fetchQueue[m..];
      assert Restarted(c.fetchQueue, m, readyTime) == [d.decodeQueue[|c.decodeQueue|]] + Restarted(d.fetchQueue, rest, readyTime);
      assert d.decodeQueue + Restarted(d.fetchQueue, rest, readyTime) == c.decodeQueue + Restarted(c.fetchQueue, m, readyTime);
      forall i | 0 <= i < m ensures c.fetchQueue[i].readyTime <= c.cycle {
        if i > 0 { assert c.fetchQueue[i] == d.fetchQueue[i - 1]; }
      }
    } else {
      assert c.decodeQueue + Restarted(c.fetchQueue, 0, readyTime) == c.decodeQueue;
    }
  }

  /** The same for decode: it stops at its width, at the end of the fetch queue, at a full
      decode queue, or at an instruction that is not due. */
  lemma DecodeStageDoes(k: Config, program: seq<TraceInstr>, c: Core) returns (m: nat)
    requires c.regs.Ok()
    ensures var c' := Step(k, program, c, DecodeStage);
            && m <= |c.fetchQueue|
            && c' == c.(decodeQueue := c.decodeQueue + Restarted(c.fetchQueue, m, c.cycle + k.decodeLatency), fetchQueue := c.fetchQueue[m..])
            && (forall i :: 0 <= i < m ==> c.fetchQueue[i].readyTime <= c.cycle)
            && (m == 0 || (m <= k.decodeWidth && |c.decodeQueue| + m <= k.decodeQueueSize))
            && (m >= k.decodeWidth || m == |c.fetchQueue| || |c.decodeQueue| + m >= k.decodeQueueSize
                || c.fetchQueue[m].readyTime > c.cycle)
  {
    m := DecodeFrom(k, c, 0);
  }

  // ------------------------------------------------ fetch

  /** Instructions `first`, first + 1, ... of the program as they enter the pipeline. */
  predicate Fresh(k: Config, program: seq<TraceInstr>, s: seq<Instr>, first: nat, cycle: nat) {
    forall i :: 0 <= i < |s| ==>
      && s[i].id == first + i < |program| && s[i].trace == program[first + i]
      && s[i].srcs == s[i].trace.srcs && s[i].dests == s[i].trace.dests
      && s[i].readyTime == cycle + k.fetchLatency && s[i].memOpsDone == 0
      && !s[i].scheduled && !s[i].executed && !s[i].completed
  }

  lemma {:induction false} FetchFrom(k: Config, program: seq<TraceInstr>, c: Core, count: nat) returns (added: seq<Instr>)
    ensures var m := |added|;
            && FetchLoop(k, c, program, count) == c.(fetchQueue := c.fetchQueue + added, counter := c.counter + m)
            && Fresh(k, program, added, c.counter, c.cycle)
            && (m == 0 || (count + m <= k.fetchWidth && |c.fetchQueue| + m <= k.fetchQueueSize))
            && (forall i :: 0 <= i < m - 1 ==> !added[i].trace.isBranch)
            && (count + m >= k.fetchWidth || |c.fetchQueue| + m >= k.fetchQueueSize || c.counter + m >= |program|
                || (m > 0 && added[m - 1].trace.isBranch))
    decreases k.fetchWidth - count
  {
    added := [];
    if count < k.fetchWidth && CanFetch(k, c, program) {
      var d := FetchOne(k, c, program);
      var first := [d.fetchQueue[|c.fetchQueue|]];
      added := first;
      if !program[c.counter].isBranch {
        var rest := FetchFrom(k, program, d, count + 1);
        added := first + rest;
        assert d.fetchQueue + rest == c.fetchQueue + added;
        assert forall i :: 0 < i < |added| ==> added[i] == rest[i - 1];
      }
    }
  }

  /** The stage appends the next instructions of the program to the fetch queue, in order. It
      does nothing if that queue or the buffer is full, and stops at its width, at a full
      queue, at the end of the program, or behind a branch. */
  lemma FetchStageDoes(k: Config, program: seq<TraceInstr>, c: Core) returns (added: seq<Instr>)
    requires c.regs.Ok()
    ensures var m := |added|;
            && Step(k, program, c, FetchStage) == c.(fetchQueue := c.fetchQueue + added, counter := c.counter + m)
            && Fresh(k, program, added, c.counter, c.cycle)
            && (m == 0 || (m <= k.fetchWidth && |c.fetchQueue| + m <= k.fetchQueueSize && |c.rob| < k.robSize))
            && (forall i :: 0 <= i < m - 1 ==> !added[i].trace.isBranch)
            && (m >= k.fetchWidth || |c.fetchQueue| + m >= k.fetchQueueSize || |c.rob| >= k.robSize
                || c.counter + m >= |program| || (m > 0 && added[m - 1].trace.isBranch))
  {
    added := [];
    if |c.fetchQueue| < k.fetchQueueSize && |c.rob| < k.robSize {
      added := FetchFrom(k, program, c, 0);
    } else {
      assert c.fetchQueue + [] == c.fetchQueue;
    }
  }

  // ------------------------------------------------ responses

  /** A response counts for the instruction with its id, if that is in the buffer. */
  lemma ResponseDoes(k: Config, program: seq<TraceInstr>, c: Core, id: nat)
    requires Inv(k, program, c)
    ensures var c' := Step(k, program, c, Response(id));
            && c' == c.(rob := c'.rob) && |c'.rob| == |c.rob|
            && forall p :: 0 <= p < |c.rob| ==>
                 c'.rob[p] == c.rob[p].(memOpsDone := c.rob[p].memOpsDone + if |c.retired| + p == id then 1 else 0)
  {
    assert forall p :: 0 <= p < |c.rob| ==> c.rob[p].id == |c.retired| + p;
    hide Inv;
    FindNumbered(c.rob, |c.retired|, id);
    hide Find;
  }

  lemma FindNumbered(rob: seq<Instr>, first: nat, id: nat)
    requires forall p :: 0 <= p < |rob| ==> rob[p].id == first + p
    ensures Find(rob, id) == if first <= id < first + |rob| then id - first else |rob|
  {
    if first <= id < first + |rob| {
      assert rob[id - first].id == id;
    }
  }

  // ------------------------------------------------ what execution waits for

  /** After any run a scheduled instruction has its operands, so that only its latency and the
      width hold it up, if and only if each of its producers has completed. */
  lemma OperandsAreReady(k: Config, program: seq<TraceInstr>, numPhysical: nat, events: seq<Event>, p: nat)
    ensures var c := Run(k, program, InitialCore(numPhysical), events);
            p < |c.rob| && c.rob[p].scheduled ==>
              ((forall j :: 0 <= j < |c.rob[p].srcs| && c.rob[p].srcs[j] >= 0 ==> c.regs.IsValid(c.rob[p].srcs[j]))
               <==> forall j :: 0 <= j < |c.rob[p].trace.srcs| ==> ProducerIsDone(program, c, p, j))
  {
    hide Inv, ProducerIsDone;
    InitialInv(k, program, numPhysical);
    RunKeepsInv(k, program, InitialCore(numPhysical), events);
    var c := Run(k, program, InitialCore(numPhysical), events);
    hide Run;
    if p < |c.rob| && c.rob[p].scheduled {
      SourcesFit(k, program, c, p);
      forall j | 0 <= j < |c.rob[p].srcs|
        ensures c.rob[p].srcs[j] >= 0 && (c.regs.IsValid(c.rob[p].srcs[j]) <==> ProducerIsDone(program, c, p, j))
      {
        ValidMeansDone(k, program, c, p, j);
      }
    }
  }

  lemma SourcesFit(k: Config, program: seq<TraceInstr>, c: Core, p: nat)
    requires Inv(k, program, c) && p < |c.rob| && c.rob[p].scheduled
    ensures |c.rob[p].srcs| == |c.rob[p].trace.srcs|
  {
    assert SrcsKnown(c, p);
  }

  lemma ValidMeansDone(k: Config, program: seq<TraceInstr>, c: Core, p: nat, j: nat)
    requires Inv(k, program, c) && p < |c.rob| && c.rob[p].scheduled && j < |c.rob[p].srcs| == |c.rob[p].trace.srcs|
    ensures c.rob[p].srcs[j] >= 0 && (c.regs.IsValid(c.rob[p].srcs[j]) <==> ProducerIsDone(program, c, p, j))
  {
    assert SrcsKnown(c, p);
    LookupFindsTheWriter(program, c, p, c.rob[p].trace.srcs[j]);
    assert c.rob[p].id == |c.retired| + p;
    hide Lookup, Conserved, Newest, LastWriter;
  }
}
