/** Out-of-order execution preserves dataflow (internal/nodes/cpu/champsim/o3_cpu.go,
    register.go). The invariant relates the renaming tables and the register file to the
    program order; every stage keeps it, whatever the order of stages and responses. */
module Dataflow {
  import opened Renaming
  import opened Pipeline

  // ------------------------------------------------------- the program-order reference

  datatype Option<T> = None | Some(value: T)

  /** The last instruction before `k`, in program order, that writes register `a`. */
  function LastWriter(program: seq<TraceInstr>, k: nat, a: Arch): (w: Option<nat>)
    ensures w.Some? ==> w.value < k
  {
    if k == 0 then None
    else if k <= |program| && a in program[k - 1].dests then Some(k - 1)
    else LastWriter(program, k - 1, a)
  }

  /** How the register file records a producer: 0 stands for none. */
  function Recorded(w: Option<nat>): nat {
    if w.Some? then w.value else 0
  }

  // ------------------------------------------------------- mappings by position

  /** The register that the instruction at position `p` of the buffer must read for `a`:
      the newest destination of the scheduled instructions before it, or the committed
      register. */
  function Lookup(rob: seq<Instr>, p: nat, a: int, committed: int): int
    requires p <= |rob|
    requires forall q :: 0 <= q < p && rob[q].scheduled ==> |rob[q].dests| == |rob[q].trace.dests|
  {
    if p == 0 then committed
    else if rob[p - 1].scheduled
    then Newest(rob[p - 1].trace.dests, rob[p - 1].dests, a, Lookup(rob, p - 1, a, committed))
    else Lookup(rob, p - 1, a, committed)
  }

  /** The destinations of one instruction that are in flight. */
  ghost function Part(x: Instr): multiset<int> {
    if x.scheduled then multiset(x.dests) else multiset{}
  }

  ghost function Parts(rob: seq<Instr>): seq<multiset<int>> {
    seq(|rob|, p requires 0 <= p < |rob| => Part(rob[p]))
  }

  ghost function Total(parts: seq<multiset<int>>): multiset<int> {
    if parts == [] then multiset{} else Total(parts[..|parts| - 1]) + parts[|parts| - 1]
  }

  ghost function Flight(rob: seq<Instr>): multiset<int> {
    Total(Parts(rob))
  }

  // ------------------------------------------------------- the invariant

  /** In the queues, instructions are as the trace has them. */
  predicate Untouched(x: Instr) {
    !x.scheduled && !x.executed && !x.completed && !x.mispredicted && x.srcs == x.trace.srcs && x.dests == x.trace.dests
  }

  predicate Numbered(s: seq<Instr>, first: nat, program: seq<TraceInstr>) {
    forall i :: 0 <= i < |s| ==> s[i].id == first + i < |program| && s[i].trace == program[first + i]
  }

  /** Program order: retired, in the buffer, decoded, fetched. */
  ghost predicate InOrder(program: seq<TraceInstr>, c: Core) {
    match c
    case Core(rob, decodeQueue, fetchQueue, _, _, counter, retired) =>
      && Numbered(retired, 0, program)
      && Numbered(rob, |retired|, program)
      && Numbered(decodeQueue, |retired| + |rob|, program)
      && Numbered(fetchQueue, |retired| + |rob| + |decodeQueue|, program)
      && counter == |retired| + |rob| + |decodeQueue| + |fetchQueue|
  }

  /** Flags are set in order, and scheduled instructions come first. */
  ghost predicate Staged(k: Config, c: Core) {
    match c
    case Core(rob, decodeQueue, fetchQueue, _, cycle, _, _) =>
      && (forall i :: 0 <= i < |decodeQueue| ==> Untouched(decodeQueue[i]))
      && (forall i :: 0 <= i < |fetchQueue| ==> Untouched(fetchQueue[i]))
      && (forall p :: 0 <= p < |rob| && !rob[p].scheduled ==>
            Untouched(rob[p]) && rob[p].readyTime <= cycle + k.dispatchLatency)
      && (forall p :: 0 <= p < |rob| && rob[p].completed ==> rob[p].executed)
      && (forall p :: 0 <= p < |rob| ==> !rob[p].mispredicted)
      && (forall p, q :: 0 <= p < q < |rob| && !rob[p].scheduled ==>
            !rob[q].scheduled && rob[p].readyTime <= rob[q].readyTime)
  }

  /** The register file knows each destination in flight. */
  predicate DestsKnown(r: Regs, x: Instr) {
    x.scheduled ==>
      && |x.dests| == |x.trace.dests|
      && forall i :: 0 <= i < |x.dests| ==>
           && 0 <= x.dests[i] < |r.file|
           && r.file[x.dests[i]] == PhysicalRegister(x.trace.dests[i], x.id, x.completed, true)
  }

  ghost predicate AllDestsKnown(c: Core) {
    forall p :: 0 <= p < |c.rob| ==> DestsKnown(c.regs, c.rob[p])
  }

  /** Each source names the register of its producer, and has its data once it is read. */
  ghost predicate SrcsKnown(c: Core, p: nat)
    requires c.regs.Ok() && p < |c.rob| && AllDestsKnown(c)
  {
    var x := c.rob[p];
    x.scheduled ==>
      && |x.srcs| == |x.trace.srcs|
      && forall j :: 0 <= j < |x.srcs| ==>
           && 0 <= x.srcs[j] == Lookup(c.rob, p, x.trace.srcs[j], c.regs.back[x.trace.srcs[j]])
           && (x.executed ==> c.regs.IsValid(x.srcs[j]))
  }

  /** The register that an instruction writes for `a`: the last of its destinations that
      stands for it. */
  function Written(x: Instr, a: int): int
    requires |x.dests| == |x.trace.dests|
  {
    Newest(x.trace.dests, x.dests, a, INVALID)
  }

  predicate Sized(x: Instr) {
    |x.dests| == |x.trace.dests|
  }

  /** The committed register of `a` holds the last retired write. */
  ghost predicate Committed(program: seq<TraceInstr>, c: Core, a: Arch)
    requires c.regs.Ok()
  {
    var w, reg := LastWriter(program, |c.retired|, a), c.regs.back[a];
    if reg == INVALID then w == None
    else
      && c.regs.file[reg] == PhysicalRegister(a, Recorded(w), true, true)
      && (w.Some? ==> Sized(c.retired[w.value]) && reg == Written(c.retired[w.value], a))
  }

  ghost predicate FrontIsNewest(c: Core)
    requires c.regs.Ok() && AllDestsKnown(c)
  {
    forall a: Arch :: c.regs.front[a] == Lookup(c.rob, |c.rob|, a, c.regs.back[a])
  }

  ghost predicate Linked(program: seq<TraceInstr>, c: Core) {
    match c
    case Core(rob, _, _, regs, _, _, _) =>
      && regs.Ok() && AllDestsKnown(c)
      && Conserved(regs, Flight(rob))
      && FrontIsNewest(c)
      && (forall p :: 0 <= p < |rob| ==> SrcsKnown(c, p))
      && (forall a: Arch :: Committed(program, c, a))
  }

  ghost predicate Inv(k: Config, program: seq<TraceInstr>, c: Core) {
    match c
    case Core(_, _, _, regs, _, _, _) => regs.Ok() && InOrder(program, c) && Staged(k, c) && Linked(program, c)
  }

  // ------------------------------------------------------- lookups

  ghost predicate WellSized(rob: seq<Instr>) {
    forall q :: 0 <= q < |rob| && rob[q].scheduled ==> |rob[q].dests| == |rob[q].trace.dests|
  }

  /** Only flags and destinations of scheduled instructions matter to a lookup. */
  ghost predicate SameMappings(x: Instr, y: Instr) {
    x.scheduled == y.scheduled && x.trace == y.trace && (x.scheduled ==> x.dests == y.dests)
  }

  lemma {:induction false} LookupFrame(rob: seq<Instr>, rob': seq<Instr>, p: nat, a: int, committed: int)
    requires WellSized(rob) && WellSized(rob') && p <= |rob| && p <= |rob'|
    requires forall q :: 0 <= q < p ==> SameMappings(rob[q], rob'[q])
    ensures Lookup(rob, p, a, committed) == Lookup(rob', p, a, committed)
    decreases p
  {
    if p > 0 {
      LookupFrame(rob, rob', p - 1, a, committed);
    }
  }

  /** Without a scheduled writer the committed register is used, and only then. */
  lemma {:induction false} LookupDefault(rob: seq<Instr>, p: nat, a: int, committed: int)
    requires WellSized(rob) && p <= |rob|
    requires forall q, i :: 0 <= q < p && rob[q].scheduled && 0 <= i < |rob[q].dests| ==> rob[q].dests[i] >= 0
    ensures Lookup(rob, p, a, committed) ==
            if Lookup(rob, p, a, INVALID) == INVALID then committed else Lookup(rob, p, a, INVALID)
    decreases p
  {
    if p > 0 {
      LookupDefault(rob, p - 1, a, committed);
      var x := rob[p - 1];
      if x.scheduled {
        NewestIsOneOf(x.trace.dests, x.dests, a, Lookup(rob, p - 1, a, committed));
        NewestIsOneOf(x.trace.dests, x.dests, a, Lookup(rob, p - 1, a, INVALID));
        if a in x.trace.dests {
          NewestAgree(x.trace.dests, x.dests, a, Lookup(rob, p - 1, a, committed), Lookup(rob, p - 1, a, INVALID));
        }
      }
    }
  }

  lemma {:induction false} NewestAgree(archs: seq<int>, regs: seq<int>, a: int, one: int, two: int)
    requires |archs| == |regs| && a in archs
    ensures Newest(archs, regs, a, one) == Newest(archs, regs, a, two)
  {
    if archs[|archs| - 1] != a {
      assert archs == archs[..|archs| - 1] + [archs[|archs| - 1]];
      NewestAgree(archs[..|archs| - 1], regs[..|regs| - 1], a, one, two);
    }
  }

  /** After the head has retired into the committed table, everyone looks up the same. */
  lemma {:induction false} LookupAfterRetire(rob: seq<Instr>, p: nat, a: int, committed: int)
    requires WellSized(rob) && rob != [] && rob[0].scheduled && 1 <= p <= |rob|
    requires WellSized(rob[1..])
    ensures Lookup(rob, p, a, committed) ==
            Lookup(rob[1..], p - 1, a, Newest(rob[0].trace.dests, rob[0].dests, a, committed))
    decreases p
  {
    if p > 1 {
      LookupAfterRetire(rob, p - 1, a, committed);
      assert rob[1..][p - 2] == rob[p - 1];
    } else {
      assert Lookup(rob, 0, a, committed) == committed;
    }
  }

  // ------------------------------------------------------- registers in flight

  lemma {:induction false} TotalAfterUpdate(parts: seq<multiset<int>>, i: nat, m: multiset<int>)
    requires i < |parts|
    ensures Total(parts[i := m]) + parts[i] == Total(parts) + m
    decreases |parts|
  {
    var n := |parts| - 1;
    if i == n {
      assert parts[i := m][..n] == parts[..n];
    } else {
      TotalAfterUpdate(parts[..n], i, m);
      assert parts[i := m][..n] == parts[..n][i := m];
      AddToBoth(Total(parts[..n][i := m]), parts[i], Total(parts[..n]), m, parts[n]);
    }
  }

  lemma AddToBoth(a: multiset<int>, b: multiset<int>, c: multiset<int>, d: multiset<int>, e: multiset<int>)
    requires a + b == c + d
    ensures (a + e) + b == (c + e) + d
  {
    assert (a + e) + b == (a + b) + e;
    assert (c + e) + d == (c + d) + e;
  }

  lemma FlightAfterUpdate(rob: seq<Instr>, i: nat, x: Instr)
    requires i < |rob|
    ensures Flight(rob[i := x]) + Part(rob[i]) == Flight(rob) + Part(x)
  {
    assert Parts(rob[i := x]) == Parts(rob)[i := Part(x)];
    TotalAfterUpdate(Parts(rob), i, Part(x));
  }

  lemma {:induction false} TotalWithoutHead(parts: seq<multiset<int>>)
    requires parts != []
    ensures Total(parts) == parts[0] + Total(parts[1..])
    decreases |parts|
  {
    var n := |parts| - 1;
    if n > 0 {
      TotalWithoutHead(parts[..n]);
      assert parts[..n][1..] == parts[1..][..n - 1];
    } else {
      assert parts[..0] == [] && parts[1..] == [];
    }
  }

  lemma FlightWithoutHead(rob: seq<Instr>)
    requires rob != []
    ensures Flight(rob) == Part(rob[0]) + Flight(rob[1..])
  {
    assert Parts(rob)[1..] == Parts(rob[1..]);
    TotalWithoutHead(Parts(rob));
  }

  lemma FlightWithLast(rob: seq<Instr>, x: Instr)
    ensures Flight(rob + [x]) == Flight(rob) + Part(x)
  {
    assert Parts(rob + [x]) == Parts(rob) + [Part(x)];
    assert (Parts(rob) + [Part(x)])[..|rob|] == Parts(rob);
  }

  lemma PartIsInFlight(rob: seq<Instr>, p: nat)
    requires p < |rob|
    ensures Part(rob[p]) <= Flight(rob)
  {
    var off := rob[p].(scheduled := false);
    FlightAfterUpdate(rob, p, off);
    assert Flight(rob) == Flight(rob[p := off]) + Part(rob[p]);
  }

  lemma TwiceInFlight(rob: seq<Instr>, p: nat, q: nat, d: int)
    requires p < |rob| && q < |rob| && p != q
    requires rob[p].scheduled && rob[q].scheduled && d in rob[p].dests && d in rob[q].dests
    ensures Flight(rob)[d] >= 2
  {
    var off := rob[p].(scheduled := false);
    FlightAfterUpdate(rob, p, off);
    PartIsInFlight(rob[p := off], q);
    assert Part(rob[q])[d] >= 1 && Part(rob[p])[d] >= 1;
    assert Flight(rob) == Flight(rob[p := off]) + Part(rob[p]);
  }

  /** Two instructions in flight never share a destination. */
  lemma DestsAreDistinct(r: Regs, rob: seq<Instr>, p: nat, q: nat, d: int)
    requires Conserved(r, Flight(rob)) && p < |rob| && q < |rob| && p != q
    requires rob[p].scheduled && rob[q].scheduled && d in rob[p].dests && d >= 0
    ensures d !in rob[q].dests
  {
    if d in rob[q].dests {
      TwiceInFlight(rob, p, q, d);
    }
  }

  /** A destination in flight is neither free nor committed. */
  lemma DestIsNotFree(r: Regs, rob: seq<Instr>, p: nat, d: int)
    requires Conserved(r, Flight(rob)) && p < |rob| && rob[p].scheduled && d in rob[p].dests && d >= 0
    ensures d !in r.free && d !in r.back
  {
    PartIsInFlight(rob, p);
    assert Part(rob[p])[d] >= 1;
    assert multiset(r.free)[d] == 0 && multiset(r.back)[d] == 0;
  }

  lemma CommittedIsNotFree(r: Regs, flight: multiset<int>, a: Arch)
    requires r.Ok() && Conserved(r, flight) && r.back[a] >= 0
    ensures r.back[a] !in r.free
  {
    assert r.back[a] in r.back;
    assert multiset(r.back)[r.back[a]] >= 1;
    assert multiset(r.free)[r.back[a]] == 0;
  }
}
