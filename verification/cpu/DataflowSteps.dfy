/** Every stage of the pipeline keeps the invariant of module Dataflow, one instruction at a
    time. */
module DataflowSteps {
  import opened Renaming
  import opened Pipeline
  import opened Dataflow

  lemma LookupsAgree(rob: seq<Instr>, rob': seq<Instr>)
    requires WellSized(rob) && WellSized(rob') && |rob'| == |rob|
    requires forall q :: 0 <= q < |rob| ==> SameMappings(rob[q], rob'[q])
    ensures forall p, a, committed :: 0 <= p <= |rob| ==> Lookup(rob', p, a, committed) == Lookup(rob, p, a, committed)
  {
    forall p, a, committed | 0 <= p <= |rob|
      ensures Lookup(rob', p, a, committed) == Lookup(rob, p, a, committed)
    {
      LookupFrame(rob, rob', p, a, committed);
    }
  }

  // ------------------------------------------------------------------ execution

  /** `y` is `x` with other flags; it is executed only if its sources have their data. */
  predicate Touched(r: Regs, x: Instr, y: Instr) {
    && y == x.(readyTime := y.readyTime, executed := y.executed, memOpsDone := y.memOpsDone)
    && (y.executed && !x.executed ==> x.scheduled && Dependencies(r, x.srcs) == 0)
  }

  lemma TouchKeepsLinks(program: seq<TraceInstr>, c: Core, i: nat, y: Instr)
    requires Linked(program, c) && i < |c.rob| && Touched(c.regs, c.rob[i], y)
    ensures Linked(program, c.(rob := c.rob[i := y]))
  {
    var c' := c.(rob := c.rob[i := y]);
    NoDependencies(c.regs, y.srcs);
    assert Parts(c'.rob) == Parts(c.rob);
    assert AllDestsKnown(c') by {
      assert forall p :: 0 <= p < |c.rob| ==> DestsKnown(c.regs, c.rob[p]);
    }
    LookupsAgree(c.rob, c'.rob);
    forall p | 0 <= p < |c'.rob|
      ensures SrcsKnown(c', p)
    {
      assert SrcsKnown(c, p);
    }
    assert forall a: Arch :: Committed(program, c, a) ==> Committed(program, c', a);
  }

  // ------------------------------------------------------------------ completion

  lemma CompleteKeepsDests(program: seq<TraceInstr>, c: Core, i: nat)
    requires Linked(program, c) && i < |c.rob| && CanComplete(c, i) && c.rob[i].scheduled
    ensures AllDestsKnown(CompleteOne(c, i))
  {
    var x, c' := c.rob[i], CompleteOne(c, i);
    CompleteDestsFacts(c.regs, x.dests);
    assert DestsKnown(c.regs, x);
    forall p | 0 <= p < |c'.rob|
      ensures DestsKnown(c'.regs, c'.rob[p])
    {
      assert DestsKnown(c.regs, c.rob[p]);
      if p != i && c.rob[p].scheduled {
        forall j | 0 <= j < |c.rob[p].dests|
          ensures c.rob[p].dests[j] !in x.dests
        {
          DestsAreDistinct(c.regs, c.rob, p, i, c.rob[p].dests[j]);
        }
      }
    }
  }

  lemma CompleteKeepsLinks(program: seq<TraceInstr>, c: Core, i: nat)
    requires Linked(program, c) && i < |c.rob| && CanComplete(c, i) && c.rob[i].scheduled
    ensures Linked(program, CompleteOne(c, i))
  {
    var x, c' := c.rob[i], CompleteOne(c, i);
    CompleteDestsFacts(c.regs, x.dests);
    CompleteKeepsDests(program, c, i);
    assert Parts(c'.rob) == Parts(c.rob);
    LookupsAgree(c.rob, c'.rob);
    forall p | 0 <= p < |c'.rob|
      ensures SrcsKnown(c', p)
    {
      assert SrcsKnown(c, p);
    }
    forall a: Arch
      ensures Committed(program, c', a)
    {
      assert Committed(program, c, a);
    }
  }

  // ------------------------------------------------------------------ dispatch

  lemma DispatchKeepsLinks(program: seq<TraceInstr>, c: Core, x: Instr)
    requires Linked(program, c) && Untouched(x)
    ensures Linked(program, c.(rob := c.rob + [x]))
  {
    var c' := c.(rob := c.rob + [x]);
    FlightWithLast(c.rob, x);
    assert Flight(c'.rob) == Flight(c.rob);
    assert AllDestsKnown(c') by {
      assert forall p :: 0 <= p < |c.rob| ==> DestsKnown(c.regs, c.rob[p]);
    }
    forall p, a, committed | 0 <= p <= |c.rob|
      ensures Lookup(c'.rob, p, a, committed) == Lookup(c.rob, p, a, committed)
    {
      LookupFrame(c.rob, c'.rob, p, a, committed);
    }
    forall p | 0 <= p < |c'.rob|
      ensures SrcsKnown(c', p)
    {
      if p < |c.rob| {
        assert SrcsKnown(c, p);
      }
    }
    forall a: Arch
      ensures Committed(program, c', a)
      ensures c'.regs.front[a] == Lookup(c'.rob, |c'.rob|, a, c'.regs.back[a])
    {
      assert Committed(program, c, a);
    }
  }

  // ------------------------------------------------------------------ scheduling

  /** What an instruction looks up is in use: committed, or in flight. */
  lemma {:induction false} LookupIsUsed(c: Core, p: nat, a: Arch)
    requires c.regs.Ok() && AllDestsKnown(c) && Conserved(c.regs, Flight(c.rob)) && p <= |c.rob|
    ensures var reg := Lookup(c.rob, p, a, c.regs.back[a]);
            c.regs.IsMapping(reg) && reg !in c.regs.free
  {
    if p == 0 {
      if c.regs.back[a] >= 0 {
        CommittedIsNotFree(c.regs, Flight(c.rob), a);
      }
    } else {
      LookupIsUsed(c, p - 1, a);
      var x := c.rob[p - 1];
      assert DestsKnown(c.regs, x);
      if x.scheduled {
        var other := Lookup(c.rob, p - 1, a, c.regs.back[a]);
        NewestIsOneOf(x.trace.dests, x.dests, a, other);
        if a in x.trace.dests {
          DestIsNotFree(c.regs, c.rob, p - 1, Newest(x.trace.dests, x.dests, a, other));
        }
      }
    }
  }

  lemma {:induction false} LookupSkips(rob: seq<Instr>, i: nat, p: nat, a: int, committed: int)
    requires WellSized(rob) && i <= p <= |rob|
    requires forall q :: i <= q < p ==> !rob[q].scheduled
    ensures Lookup(rob, p, a, committed) == Lookup(rob, i, a, committed)
    decreases p
  {
    if i < p {
      LookupSkips(rob, i, p - 1, a, committed);
    }
  }

  ghost predicate DestsArePhysical(rob: seq<Instr>) {
    forall q, i :: 0 <= q < |rob| && rob[q].scheduled && 0 <= i < |rob[q].dests| ==> rob[q].dests[i] >= 0
  }

  /** Without a front-end mapping there is neither a committed register nor a writer in
      flight. */
  lemma UnmappedMeansUnwritten(program: seq<TraceInstr>, c: Core, a: Arch)
    requires Linked(program, c)
    ensures c.regs.back[a] >= 0 ==> c.regs.IsAllocated(a)
    ensures !c.regs.IsAllocated(a) ==> c.regs.back[a] == INVALID && Lookup(c.rob, |c.rob|, a, INVALID) == INVALID
  {
    assert forall q :: 0 <= q < |c.rob| ==> DestsKnown(c.regs, c.rob[q]);
    assert DestsArePhysical(c.rob);
    LookupDefault(c.rob, |c.rob|, a, c.regs.back[a]);
  }

  /** Renaming the sources extends the committed table, and changes no other lookup. */
  lemma LookupAfterSrcs(program: seq<TraceInstr>, c: Core, now: Regs, srcs: seq<int>, out: seq<int>, i: nat, a: Arch)
    requires Linked(program, c) && now.Ok() && |out| == |srcs| && i <= |c.rob|
    requires forall j :: 0 <= j < |srcs| ==> 0 <= srcs[j] < 256
    requires SrcsRenamed(c.regs, srcs, now, out)
    requires forall q :: i <= q < |c.rob| ==> !c.rob[q].scheduled
    ensures now.front[a] == Lookup(c.rob, i, a, now.back[a])
    ensures forall p :: 0 <= p <= i && Lookup(c.rob, p, a, c.regs.back[a]) >= 0 ==>
              Lookup(c.rob, p, a, now.back[a]) == Lookup(c.rob, p, a, c.regs.back[a])
  {
    UnmappedMeansUnwritten(program, c, a);
    assert forall q :: 0 <= q < |c.rob| ==> DestsKnown(c.regs, c.rob[q]);
    assert DestsArePhysical(c.rob);
    LookupSkips(c.rob, i, |c.rob|, a, c.regs.back[a]);
    LookupSkips(c.rob, i, |c.rob|, a, INVALID);
    LookupDefault(c.rob, i, a, now.back[a]);
    forall p | 0 <= p <= i && Lookup(c.rob, p, a, c.regs.back[a]) >= 0
      ensures Lookup(c.rob, p, a, now.back[a]) == Lookup(c.rob, p, a, c.regs.back[a])
    {
      LookupDefault(c.rob, p, a, now.back[a]);
      LookupDefault(c.rob, p, a, c.regs.back[a]);
    }
  }

  /** The state between the two renaming loops, and the one after. */
  ghost predicate Renames(c: Core, i: nat, mid: Regs, srcs: seq<int>, now: Regs, dests: seq<int>)
    requires i < |c.rob|
  {
    var x := c.rob[i];
    && c.regs.Ok() && mid.Ok() && now.Ok() && |srcs| == |x.srcs| && |dests| == |x.dests|
    && Untouched(x)
    && SrcsRenamed(c.regs, x.trace.srcs, mid, srcs)
    && DestsRenamed(mid, x.trace.dests, x.id, now, dests)
    && Conserved(now, Flight(c.rob) + multiset(dests))
  }

  ghost predicate IsFrontier(rob: seq<Instr>, i: nat) {
    && (forall q :: 0 <= q < i && q < |rob| ==> rob[q].scheduled)
    && (forall q :: i <= q < |rob| ==> !rob[q].scheduled)
  }

  function Scheduled(x: Instr, srcs: seq<int>, dests: seq<int>): Instr {
    x.(srcs := srcs, dests := dests, scheduled := true)
  }

  lemma ScheduleRenames(program: seq<TraceInstr>, c: Core, i: nat)
    requires Linked(program, c) && i < |c.rob| && Untouched(c.rob[i])
    requires Needs(c.regs, c.rob[i]) <= |c.regs.free|
    ensures var x := c.rob[i];
            var (mid, srcs) := RenameSrcs(c.regs, x.srcs);
            var (now, dests) := RenameDests(mid, x.dests, x.id);
            && Renames(c, i, mid, srcs, now, dests)
            && ScheduleOne(c, i) == c.(rob := c.rob[i := Scheduled(x, srcs, dests)], regs := now)
  {
    var x := c.rob[i];
    assert FrontKnowsBack(c.regs) by {
      forall a: Arch ensures !c.regs.IsAllocated(a) ==> c.regs.back[a] == INVALID {
        UnmappedMeansUnwritten(program, c, a);
      }
    }
    RenameSrcsFacts(c.regs, x.srcs, Flight(c.rob));
    var (mid, srcs) := RenameSrcs(c.regs, x.srcs);
    RenameDestsFacts(mid, x.dests, x.id, Flight(c.rob));
  }

  lemma ScheduleKeepsDests(program: seq<TraceInstr>, c: Core, i: nat, mid: Regs, srcs: seq<int>, now: Regs, dests: seq<int>)
    requires Linked(program, c) && i < |c.rob| && Renames(c, i, mid, srcs, now, dests)
    ensures var c' := c.(rob := c.rob[i := Scheduled(c.rob[i], srcs, dests)], regs := now);
            AllDestsKnown(c') && Conserved(c'.regs, Flight(c'.rob))
  {
    var c' := c.(rob := c.rob[i := Scheduled(c.rob[i], srcs, dests)], regs := now);
    FlightAfterUpdate(c.rob, i, c'.rob[i]);
    assert Flight(c'.rob) == Flight(c.rob) + multiset(dests);
    forall p | 0 <= p < |c'.rob|
      ensures DestsKnown(c'.regs, c'.rob[p])
    {
      assert DestsKnown(c.regs, c.rob[p]);
      if p != i && c.rob[p].scheduled {
        forall j | 0 <= j < |c.rob[p].dests|
          ensures c.rob[p].dests[j] !in c.regs.free
        {
          DestIsNotFree(c.regs, c.rob, p, c.rob[p].dests[j]);
        }
      }
    }
  }

  lemma ScheduleKeepsSrcs(program: seq<TraceInstr>, c: Core, i: nat, mid: Regs, srcs: seq<int>, now: Regs, dests: seq<int>, p: nat)
    requires Linked(program, c) && i < |c.rob| && Renames(c, i, mid, srcs, now, dests) && IsFrontier(c.rob, i)
    requires p < |c.rob|
    requires AllDestsKnown(c.(rob := c.rob[i := Scheduled(c.rob[i], srcs, dests)], regs := now))
    ensures SrcsKnown(c.(rob := c.rob[i := Scheduled(c.rob[i], srcs, dests)], regs := now), p)
  {
    var x := c.rob[p];
    var c' := c.(rob := c.rob[i := Scheduled(c.rob[i], srcs, dests)], regs := now);
    if p <= i {
      var out := c'.rob[p].srcs;
      assert SrcsKnown(c, p);
      forall j | 0 <= j < |out|
        ensures 0 <= out[j] == Lookup(c'.rob, p, x.trace.srcs[j], now.back[x.trace.srcs[j]])
        ensures x.executed ==> now.IsValid(out[j])
      {
        var a := x.trace.srcs[j];
        LookupAfterSrcs(program, c, mid, c.rob[i].trace.srcs, srcs, i, a);
        LookupFrame(c.rob, c'.rob, p, a, now.back[a]);
        LookupIsUsed(c, p, a);
      }
    }
  }

  lemma ScheduleKeepsTables(program: seq<TraceInstr>, c: Core, i: nat, mid: Regs, srcs: seq<int>, now: Regs, dests: seq<int>, a: Arch)
    requires Linked(program, c) && i < |c.rob| && Renames(c, i, mid, srcs, now, dests) && IsFrontier(c.rob, i)
    requires AllDestsKnown(c.(rob := c.rob[i := Scheduled(c.rob[i], srcs, dests)], regs := now))
    ensures var c' := c.(rob := c.rob[i := Scheduled(c.rob[i], srcs, dests)], regs := now);
            Committed(program, c', a) && now.front[a] == Lookup(c'.rob, |c'.rob|, a, now.back[a])
  {
    var c' := c.(rob := c.rob[i := Scheduled(c.rob[i], srcs, dests)], regs := now);
    assert Committed(program, c, a);
    UnmappedMeansUnwritten(program, c, a);
    if c.regs.back[a] >= 0 {
      CommittedIsNotFree(c.regs, Flight(c.rob), a);
    }
    LookupAfterSrcs(program, c, mid, c.rob[i].trace.srcs, srcs, i, a);
    LookupFrame(c.rob, c'.rob, i, a, now.back[a]);
    LookupSkips(c'.rob, i + 1, |c'.rob|, a, now.back[a]);
  }

  lemma ScheduleKeepsLinks(program: seq<TraceInstr>, c: Core, i: nat)
    requires Linked(program, c) && i < |c.rob| && Untouched(c.rob[i]) && IsFrontier(c.rob, i)
    requires Needs(c.regs, c.rob[i]) <= |c.regs.free|
    ensures Linked(program, ScheduleOne(c, i))
  {
    var x := c.rob[i];
    ScheduleRenames(program, c, i);
    var (mid, srcs) := RenameSrcs(c.regs, x.srcs);
    var (now, dests) := RenameDests(mid, x.dests, x.id);
    ScheduleKeepsDests(program, c, i, mid, srcs, now, dests);
    forall p | 0 <= p < |c.rob|
      ensures SrcsKnown(ScheduleOne(c, i), p)
    {
      ScheduleKeepsSrcs(program, c, i, mid, srcs, now, dests, p);
    }
    forall a: Arch
      ensures Committed(program, ScheduleOne(c, i), a)
      ensures now.front[a] == Lookup(ScheduleOne(c, i).rob, |c.rob|, a, now.back[a])
    {
      ScheduleKeepsTables(program, c, i, mid, srcs, now, dests, a);
    }
  }

  // ------------------------------------------------------------------ retirement

  lemma RetireKeepsDests(program: seq<TraceInstr>, c: Core)
    requires Linked(program, c) && CanRetire(c) && c.rob[0].scheduled
    ensures var c' := RetireHead(c);
            && AllDestsKnown(c') && Conserved(c'.regs, Flight(c'.rob))
            && |c.rob[0].dests| == |c.rob[0].trace.dests|
            && DestsRetired(c.regs, c.rob[0].trace.dests, c.rob[0].dests, c'.regs)
  {
    var x, c' := c.rob[0], RetireHead(c);
    assert DestsKnown(c.regs, x);
    PartIsInFlight(c.rob, 0);
    FlightWithoutHead(c.rob);
    RetireDestsFacts(c.regs, x.trace.dests, x.dests, Flight(c.rob));
    assert Flight(c'.rob) == Flight(c.rob) - multiset(x.dests);
    forall p | 0 <= p < |c'.rob|
      ensures DestsKnown(c'.regs, c'.rob[p])
    {
      var y := c'.rob[p];
      assert y == c.rob[p + 1] && DestsKnown(c.regs, y);
      if y.scheduled {
        forall j | 0 <= j < |y.dests|
          ensures y.dests[j] !in c'.regs.free
        {
          DestIsNotFree(c'.regs, c'.rob, p, y.dests[j]);
        }
      }
    }
  }

  lemma RetireKeepsSrcs(program: seq<TraceInstr>, c: Core, p: nat)
    requires Linked(program, c) && CanRetire(c) && c.rob[0].scheduled && 1 <= p < |c.rob|
    requires AllDestsKnown(RetireHead(c))
    ensures SrcsKnown(RetireHead(c), p - 1)
  {
    var c' := RetireHead(c);
    RetireKeepsDests(program, c);
    assert SrcsKnown(c, p) && c'.rob[p - 1] == c.rob[p];
    forall j | 0 <= j < |c.rob[p].srcs| && c.rob[p].scheduled
      ensures var a := c.rob[p].trace.srcs[j];
              && c.rob[p].srcs[j] == Lookup(c'.rob, p - 1, a, c'.regs.back[a])
              && (c.rob[p].executed ==> c'.regs.IsValid(c.rob[p].srcs[j]))
    {
      var a := c.rob[p].trace.srcs[j];
      LookupAfterRetire(c.rob, p, a, c.regs.back[a]);
      LookupIsUsed(c', p - 1, a);
    }
  }

  lemma RetireKeepsTables(program: seq<TraceInstr>, c: Core, a: Arch)
    requires Linked(program, c) && CanRetire(c) && c.rob[0].scheduled
    requires |c.retired| < |program| && c.rob[0].id == |c.retired| && c.rob[0].trace == program[|c.retired|]
    requires AllDestsKnown(RetireHead(c))
    ensures Committed(program, RetireHead(c), a)
    ensures RetireHead(c).regs.front[a] == Lookup(RetireHead(c).rob, |c.rob| - 1, a, RetireHead(c).regs.back[a])
  {
    var x, c' := c.rob[0], RetireHead(c);
    RetireKeepsDests(program, c);
    LookupAfterRetire(c.rob, |c.rob|, a, c.regs.back[a]);
    assert Committed(program, c, a) && DestsKnown(c.regs, x);
    NewestIsOneOf(x.trace.dests, x.dests, a, c.regs.back[a]);
    if a in x.trace.dests {
      NewestAgree(x.trace.dests, x.dests, a, c.regs.back[a], INVALID);
    }
    if c'.regs.back[a] >= 0 {
      CommittedIsNotFree(c'.regs, Flight(c'.rob), a);
    }
  }

  lemma RetireKeepsLinks(program: seq<TraceInstr>, c: Core)
    requires Linked(program, c) && CanRetire(c) && c.rob[0].scheduled
    requires |c.retired| < |program| && c.rob[0].id == |c.retired| && c.rob[0].trace == program[|c.retired|]
    ensures Linked(program, RetireHead(c))
  {
    RetireKeepsDests(program, c);
    forall p | 0 <= p < |RetireHead(c).rob| ensures SrcsKnown(RetireHead(c), p) { RetireKeepsSrcs(program, c, p + 1); }
    forall a: Arch
      ensures Committed(program, RetireHead(c), a)
      ensures RetireHead(c).regs.front[a] == Lookup(RetireHead(c).rob, |c.rob| - 1, a, RetireHead(c).regs.back[a])
    {
      RetireKeepsTables(program, c, a);
    }
  }
}
