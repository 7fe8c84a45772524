/** RegisterAllocator (internal/nodes/cpu/champsim/register.go): two register alias tables,
    a FIFO of free physical registers, and the physical register file. */
module Renaming {

  type Arch = a: int | 0 <= a < 256

  const INVALID := -1

  /** The architectural register a trace operand or a physical id is truncated to. */
  function Uint8(reg: nat): Arch {
    reg % 256
  }

  datatype PhysicalRegister = PhysicalRegister(arch: Arch, producer: nat, valid: bool, busy: bool)

  const CLEARED := PhysicalRegister(255, 0, false, false)

  datatype Regs = Regs(front: seq<int>, back: seq<int>, free: seq<int>, file: seq<PhysicalRegister>) {

    predicate IsMapping(reg: int) {
      INVALID <= reg < |file|
    }

    /** The shape all operations keep; indices never leave the tables. */
    ghost predicate Ok() {
      && |front| == 256 && |back| == 256
      && (forall a :: 0 <= a < 256 ==> IsMapping(front[a]) && IsMapping(back[a]))
      && (forall i :: 0 <= i < |free| ==> 0 <= free[i] < |file|)
    }

    /** RenameDestRegister; the code panics on an empty free list. */
    function RenameDest(a: Arch, id: nat): (r: Regs)
      requires Ok() && |free| > 0
      ensures r.Ok()
    {
      Regs(front[a := free[0]], back, free[1..], file[free[0] := PhysicalRegister(a, id, false, true)])
    }

    predicate IsAllocated(a: Arch)
      requires |front| == 256
    {
      front[a] != INVALID
    }

    /** RenameSrcRegister; the new mapping of `a` is front[a]. */
    function RenameSrc(a: Arch): (r: Regs)
      requires Ok() && (IsAllocated(a) || |free| > 0)
      ensures r.Ok()
    {
      if IsAllocated(a) then this
      else
        Regs(front[a := free[0]], back[a := free[0]], free[1..],
             file[free[0] := PhysicalRegister(a, 0, true, true)])
    }

    function CompleteDest(d: nat): (r: Regs)
      requires Ok()
      ensures r.Ok()
    {
      if d >= |file| then this else this.(file := file[d := file[d].(valid := true)])
    }

    function Free(d: nat): (r: Regs)
      requires Ok()
      ensures r.Ok()
    {
      if d >= |file| then this else this.(file := file[d := CLEARED], free := free + [d])
    }

    function RetireDest(d: nat): (r: Regs)
      requires Ok()
      ensures r.Ok()
    {
      if d >= |file| then this
      else
        var a := file[d].arch;
        var next := this.(back := back[a := d]);
        if back[a] == INVALID then next else next.Free(back[a])
    }

    predicate IsValid(reg: int) {
      0 <= reg < |file| ==> file[reg].valid
    }
  }

  function Initial(numPhysical: nat): (r: Regs)
    ensures r.Ok()
  {
    Regs(seq(256, _ => INVALID), seq(256, _ => INVALID), seq(numPhysical, i => i),
         seq(numPhysical, _ => PhysicalRegister(0, 0, false, false)))
  }

  // ------------------------------------------------ the loops over operands

  /** The source operands that have no mapping yet. */
  function Unallocated(r: Regs, srcs: seq<int>): nat
    requires |r.front| == 256
  {
    if srcs == [] then 0
    else
      var n := |srcs| - 1;
      Unallocated(r, srcs[..n]) + if srcs[n] >= 0 && !r.IsAllocated(Uint8(srcs[n])) then 1 else 0
  }

  function CountValid(regs: seq<int>): (n: nat)
    ensures n <= |regs|
  {
    if regs == [] then 0
    else CountValid(regs[..|regs| - 1]) + if regs[|regs| - 1] >= 0 then 1 else 0
  }

  /** The tables, and the operands, after the source operands have been renamed. */
  function RenameSrcs(r: Regs, srcs: seq<int>): (res: (Regs, seq<int>))
    requires r.Ok() && Unallocated(r, srcs) <= |r.free|
    ensures res.0.Ok() && |res.1| == |srcs|
    ensures |r.free| - Unallocated(r, srcs) <= |res.0.free|
    ensures forall a: Arch :: r.IsAllocated(a) ==> res.0.front[a] == r.front[a]
  {
    if srcs == [] then (r, [])
    else
      var n := |srcs| - 1;
      var (r', done) := RenameSrcs(r, srcs[..n]);
      if srcs[n] >= 0 then
        var a := Uint8(srcs[n]);
        (r'.RenameSrc(a), done + [r'.RenameSrc(a).front[a]])
      else (r', done + [srcs[n]])
  }

  function RenameDests(r: Regs, dests: seq<int>, id: nat): (res: (Regs, seq<int>))
    requires r.Ok() && CountValid(dests) <= |r.free|
    ensures res.0.Ok() && |res.1| == |dests|
    ensures |res.0.free| == |r.free| - CountValid(dests)
  {
    if dests == [] then (r, [])
    else
      var n := |dests| - 1;
      var (r', done) := RenameDests(r, dests[..n], id);
      if dests[n] >= 0 then (r'.RenameDest(Uint8(dests[n]), id), done + [r'.free[0]])
      else (r', done + [dests[n]])
  }

  function CompleteDests(r: Regs, dests: seq<int>): (res: Regs)
    requires r.Ok()
    ensures res.Ok()
  {
    if dests == [] then r
    else
      var n := |dests| - 1;
      var r' := CompleteDests(r, dests[..n]);
      if dests[n] >= 0 then r'.CompleteDest(dests[n]) else r'
  }

  function RetireDests(r: Regs, dests: seq<int>): (res: Regs)
    requires r.Ok()
    ensures res.Ok()
  {
    if dests == [] then r
    else
      var n := |dests| - 1;
      var r' := RetireDests(r, dests[..n]);
      if dests[n] >= 0 then r'.RetireDest(dests[n]) else r'
  }

  /** CountRegDependencies: source operands whose data is not there yet. */
  function Dependencies(r: Regs, srcs: seq<int>): nat {
    if srcs == [] then 0
    else
      var n := |srcs| - 1;
      Dependencies(r, srcs[..n]) + if srcs[n] >= 0 && !r.IsValid(srcs[n]) then 1 else 0
  }

  lemma {:induction false} NoDependencies(r: Regs, srcs: seq<int>)
    ensures Dependencies(r, srcs) == 0 <==> forall j :: 0 <= j < |srcs| && srcs[j] >= 0 ==> r.IsValid(srcs[j])
  {
    if srcs != [] {
      NoDependencies(r, srcs[..|srcs| - 1]);
    }
  }

  // ------------------------------------------------ conservation

  function Ones(r: int, n: nat): nat {
    if 0 <= r < n then 1 else 0
  }

  /** Every physical register is in exactly one place: on the free list, in the back-end
      table, or the destination of an instruction in flight. */
  ghost predicate Conserved(r: Regs, flight: multiset<int>) {
    forall p :: p >= 0 ==> multiset(r.free)[p] + multiset(r.back)[p] + flight[p] == Ones(p, |r.file|)
  }

  /** The last of `regs` that stands for `a`, or `other` if none does. */
  function Newest(archs: seq<int>, regs: seq<int>, a: int, other: int): int
    requires |archs| == |regs|
  {
    if archs == [] then other
    else if archs[|archs| - 1] == a then regs[|regs| - 1]
    else Newest(archs[..|archs| - 1], regs[..|regs| - 1], a, other)
  }

  lemma {:induction false} NewestIsOneOf(archs: seq<int>, regs: seq<int>, a: int, other: int)
    requires |archs| == |regs|
    ensures if a in archs
            then exists i :: 0 <= i < |archs| && archs[i] == a && Newest(archs, regs, a, other) == regs[i]
            else Newest(archs, regs, a, other) == other
  {
    if archs != [] && archs[|archs| - 1] != a {
      NewestIsOneOf(archs[..|archs| - 1], regs[..|regs| - 1], a, other);
      assert archs == archs[..|archs| - 1] + [archs[|archs| - 1]];
    }
  }

  lemma MultisetOfPop(s: seq<int>)
    requires s != []
    ensures multiset(s) == multiset{s[0]} + multiset(s[1..])
  {
    assert s == [s[0]] + s[1..];
  }

  lemma RenameDestConserves(r: Regs, a: Arch, id: nat, flight: multiset<int>)
    requires r.Ok() && |r.free| > 0 && Conserved(r, flight)
    ensures Conserved(r.RenameDest(a, id), flight + multiset{r.free[0]})
  {
    MultisetOfPop(r.free);
  }

  lemma RenameSrcConserves(r: Regs, a: Arch, flight: multiset<int>)
    requires r.Ok() && (r.IsAllocated(a) || |r.free| > 0) && Conserved(r, flight)
    requires !r.IsAllocated(a) ==> r.back[a] == INVALID
    ensures Conserved(r.RenameSrc(a), flight)
  {
    if !r.IsAllocated(a) {
      MultisetOfPop(r.free);
    }
  }

  lemma RetireDestConserves(r: Regs, d: nat, flight: multiset<int>)
    requires r.Ok() && Conserved(r, flight) && flight[d] >= 1
    ensures d < |r.file|
    ensures Conserved(r.RetireDest(d), flight - multiset{d})
  {
    assert d < |r.file| by {
      assert multiset(r.free)[d] + multiset(r.back)[d] + flight[d] == Ones(d, |r.file|);
    }
  }

  // ------------------------------------------------ what the loops do to the tables

  /** A mapping of the front end stands for whatever has been written; without one, nothing
      has. */
  ghost predicate FrontKnowsBack(r: Regs)
    requires r.Ok()
  {
    forall a: Arch :: !r.IsAllocated(a) ==> r.back[a] == INVALID
  }

  /** `now` comes from `before` by taking registers off the free list: no other register's
      record has changed. */
  ghost predicate TakesFree(before: Regs, now: Regs)
    requires |before.file| == |now.file|
  {
    && (forall p :: p in now.free ==> p in before.free)
    && (forall p :: 0 <= p < |now.file| && p !in before.free ==> now.file[p] == before.file[p])
  }

  /** Sources: every operand gets the mapping of its architectural register, and a register
      without one gets a fresh mapping that counts as committed and valid. */
  ghost predicate SrcsRenamed(r: Regs, srcs: seq<int>, now: Regs, out: seq<int>)
    requires r.Ok() && now.Ok() && |out| == |srcs|
    requires forall j :: 0 <= j < |srcs| ==> 0 <= srcs[j] < 256
  {
    && |now.file| == |r.file| && TakesFree(r, now)
    && (forall a: Arch :: r.IsAllocated(a) ==> now.front[a] == r.front[a] && now.back[a] == r.back[a])
    && (forall a: Arch :: !r.IsAllocated(a) ==> now.back[a] == now.front[a])
    && (forall a: Arch :: !r.IsAllocated(a) && now.IsAllocated(a) ==>
          now.front[a] in r.free && now.front[a] !in now.free
          && now.file[now.front[a]] == PhysicalRegister(a, 0, true, true))
    && (forall j :: 0 <= j < |srcs| ==> now.IsAllocated(srcs[j]) && out[j] == now.front[srcs[j]])
  }

  lemma RenameSrcFacts(r: Regs, a: Arch, flight: multiset<int>)
    requires r.Ok() && (r.IsAllocated(a) || |r.free| > 0) && Conserved(r, flight) && FrontKnowsBack(r)
    ensures SrcsRenamed(r, [a], r.RenameSrc(a), [r.RenameSrc(a).front[a]])
    ensures Conserved(r.RenameSrc(a), flight) && FrontKnowsBack(r.RenameSrc(a))
  {
    RenameSrcConserves(r, a, flight);
    if !r.IsAllocated(a) {
      var now := r.RenameSrc(a);
      assert multiset(now.back)[r.free[0]] > 0 by {
        assert now.back[a] in now.back;
      }
      assert multiset(now.free)[r.free[0]] == 0;
    }
  }

  /** Two lists of operands renamed one after the other. */
  lemma SrcsCompose(r: Regs, s1: seq<int>, r1: Regs, o1: seq<int>, s2: seq<int>, r2: Regs, o2: seq<int>)
    requires r.Ok() && r1.Ok() && r2.Ok() && |o1| == |s1| && |o2| == |s2|
    requires forall j :: 0 <= j < |s1| ==> 0 <= s1[j] < 256
    requires forall j :: 0 <= j < |s2| ==> 0 <= s2[j] < 256
    requires SrcsRenamed(r, s1, r1, o1) && SrcsRenamed(r1, s2, r2, o2)
    ensures SrcsRenamed(r, s1 + s2, r2, o1 + o2)
  {
    forall a: Arch | !r.IsAllocated(a) && r2.IsAllocated(a)
      ensures r2.front[a] in r.free && r2.front[a] !in r2.free
      ensures r2.file[r2.front[a]] == PhysicalRegister(a, 0, true, true)
    {
      if r1.IsAllocated(a) {
        assert r1.front[a] !in r1.free;
      }
    }
  }

  /** One more operand. */
  lemma SrcsStep(r: Regs, srcs: seq<int>, mid: Regs, done: seq<int>, a: Arch, flight: multiset<int>)
    requires r.Ok() && mid.Ok() && |done| == |srcs|
    requires forall j :: 0 <= j < |srcs| ==> 0 <= srcs[j] < 256
    requires SrcsRenamed(r, srcs, mid, done)
    requires (mid.IsAllocated(a) || |mid.free| > 0) && Conserved(mid, flight) && FrontKnowsBack(mid)
    ensures var now := mid.RenameSrc(a);
            SrcsRenamed(r, srcs + [a], now, done + [now.front[a]]) && Conserved(now, flight) && FrontKnowsBack(now)
  {
    RenameSrcFacts(mid, a, flight);
    SrcsCompose(r, srcs, mid, done, [a], mid.RenameSrc(a), [mid.RenameSrc(a).front[a]]);
  }

  lemma SrcsUnfold(r: Regs, srcs: seq<int>, n: nat)
    requires r.Ok() && Unallocated(r, srcs) <= |r.free|
    requires n == |srcs| - 1 && 0 <= srcs[n] < 256
    ensures Unallocated(r, srcs[..n]) <= |r.free|
    ensures var (mid, done) := RenameSrcs(r, srcs[..n]);
            && (mid.IsAllocated(srcs[n]) || |mid.free| > 0)
            && RenameSrcs(r, srcs) == (mid.RenameSrc(srcs[n]), done + [mid.RenameSrc(srcs[n]).front[srcs[n]]])
  {
    assert Uint8(srcs[n]) == srcs[n];
  }

  lemma NothingRenamed(r: Regs, srcs: seq<int>)
    requires r.Ok() && FrontKnowsBack(r) && srcs == [] && Unallocated(r, srcs) <= |r.free|
    ensures RenameSrcs(r, srcs) == (r, []) && SrcsRenamed(r, srcs, r, [])
  {
  }

  lemma {:induction false} RenameSrcsFacts(r: Regs, srcs: seq<int>, flight: multiset<int>)
    requires r.Ok() && Unallocated(r, srcs) <= |r.free| && Conserved(r, flight) && FrontKnowsBack(r)
    requires forall j :: 0 <= j < |srcs| ==> 0 <= srcs[j] < 256
    ensures var (now, out) := RenameSrcs(r, srcs);
            SrcsRenamed(r, srcs, now, out) && Conserved(now, flight) && FrontKnowsBack(now)
  {
    hide *;
    if srcs == [] {
      NothingRenamed(r, srcs);
    } else {
      var n := |srcs| - 1;
      SrcsUnfold(r, srcs, n);
      RenameSrcsFacts(r, srcs[..n], flight);
      SrcsStep(r, srcs[..n], RenameSrcs(r, srcs[..n]).0, RenameSrcs(r, srcs[..n]).1, srcs[n], flight);
      assert srcs == srcs[..n] + [srcs[n]];
    }
  }

  /** Destinations: each gets a register of its own off the free list, not valid yet, and
      the front end maps to the newest. */
  ghost predicate DestsRenamed(r: Regs, dests: seq<int>, id: nat, now: Regs, out: seq<int>)
    requires r.Ok() && now.Ok() && |out| == |dests|
  {
    && |now.file| == |r.file| && TakesFree(r, now) && now.back == r.back
    && (forall a: Arch :: now.front[a] == Newest(dests, out, a, r.front[a]))
    && (forall i :: 0 <= i < |dests| ==>
          && 0 <= dests[i] < 256 && out[i] in r.free && 0 <= out[i] < |now.file|
          && now.file[out[i]] == PhysicalRegister(dests[i], id, false, true))
  }

  lemma DestsStep(r: Regs, dests: seq<int>, id: nat, mid: Regs, done: seq<int>, a: Arch, flight: multiset<int>)
    requires r.Ok() && mid.Ok() && |done| == |dests| && |mid.free| > 0
    requires DestsRenamed(r, dests, id, mid, done) && Conserved(mid, flight + multiset(done))
    ensures var (now, out) := (mid.RenameDest(a, id), done + [mid.free[0]]);
            DestsRenamed(r, dests + [a], id, now, out) && Conserved(now, flight + multiset(out))
  {
    RenameDestConserves(mid, a, id, flight + multiset(done));
    var (now, out) := (mid.RenameDest(a, id), done + [mid.free[0]]);
    assert flight + multiset(out) == flight + multiset(done) + multiset{mid.free[0]};
    assert (dests + [a])[..|dests|] == dests && out[..|done|] == done;
    forall i | 0 <= i < |done|
      ensures done[i] != mid.free[0]
    {
      assert multiset(mid.free)[done[i]] == 0 by {
        assert done[i] in done;
      }
    }
  }

  lemma DestsUnfold(r: Regs, dests: seq<int>, n: nat, id: nat)
    requires r.Ok() && CountValid(dests) <= |r.free|
    requires n == |dests| - 1 && 0 <= dests[n] < 256
    ensures CountValid(dests[..n]) < |r.free|
    ensures var (mid, done) := RenameDests(r, dests[..n], id);
            && |mid.free| > 0
            && RenameDests(r, dests, id) == (mid.RenameDest(dests[n], id), done + [mid.free[0]])
  {
    assert Uint8(dests[n]) == dests[n];
  }

  lemma {:induction false} RenameDestsFacts(r: Regs, dests: seq<int>, id: nat, flight: multiset<int>)
    requires r.Ok() && CountValid(dests) <= |r.free| && Conserved(r, flight)
    requires forall i :: 0 <= i < |dests| ==> 0 <= dests[i] < 256
    ensures var (now, out) := RenameDests(r, dests, id);
            DestsRenamed(r, dests, id, now, out) && Conserved(now, flight + multiset(out))
  {
    if dests == [] {
      assert flight + multiset([]) == flight;
    } else {
      var n := |dests| - 1;
      DestsUnfold(r, dests, n, id);
      RenameDestsFacts(r, dests[..n], id, flight);
      DestsStep(r, dests[..n], id, RenameDests(r, dests[..n], id).0, RenameDests(r, dests[..n], id).1, dests[n], flight);
      assert dests == dests[..n] + [dests[n]];
    }
  }

  ghost predicate DestsCompleted(r: Regs, dests: seq<int>, now: Regs) {
    && now == r.(file := now.file) && |now.file| == |r.file|
    && forall p :: 0 <= p < |r.file| ==> now.file[p] == if p in dests then r.file[p].(valid := true) else r.file[p]
  }

  lemma {:induction false} CompleteDestsFacts(r: Regs, dests: seq<int>)
    requires r.Ok()
    ensures DestsCompleted(r, dests, CompleteDests(r, dests))
  {
    if dests != [] {
      var n := |dests| - 1;
      CompleteDestsFacts(r, dests[..n]);
      assert dests == dests[..n] + [dests[n]];
    }
  }

  /** Retirement: the back end maps to the newest destination, what it mapped to before is
      free again, and only free registers have lost their record. */
  ghost predicate DestsRetired(r: Regs, archs: seq<int>, dests: seq<int>, now: Regs)
    requires r.Ok() && now.Ok() && |archs| == |dests|
  {
    && |now.file| == |r.file| && now.front == r.front
    && (forall a: Arch :: now.back[a] == Newest(archs, dests, a, r.back[a]))
    && (forall p :: 0 <= p < |r.file| && p !in now.free ==> now.file[p] == r.file[p])
    && (forall p :: p in r.free ==> p in now.free)
    && (forall p :: p in now.free ==> now.file[p] == if p in r.free then r.file[p] else CLEARED)
  }

  /** The registers are recorded as standing for the architectural ones. */
  ghost predicate StandFor(r: Regs, archs: seq<int>, dests: seq<int>) {
    && |archs| == |dests|
    && forall i :: 0 <= i < |dests| ==> 0 <= dests[i] < |r.file| && r.file[dests[i]].arch == archs[i]
  }

  lemma RetireDestFacts(r: Regs, d: nat, flight: multiset<int>)
    requires r.Ok() && Conserved(r, flight) && flight[d] >= 1
    ensures d < |r.file| && Conserved(r.RetireDest(d), flight - multiset{d})
    ensures |r.RetireDest(d).file| == |r.file| && r.RetireDest(d).front == r.front
    ensures r.RetireDest(d).back == r.back[r.file[d].arch := d]
    ensures var now := r.RetireDest(d);
            && (forall p :: 0 <= p < |r.file| && p !in now.free ==> now.file[p] == r.file[p])
            && (forall p :: p in r.free ==> p in now.free)
            && (forall p :: p in now.free ==> now.file[p] == if p in r.free then r.file[p] else CLEARED)
  {
    RetireDestConserves(r, d, flight);
    var now := r.RetireDest(d);
    var old_ := r.back[r.file[d].arch];
    if old_ != INVALID {
      assert old_ !in r.free by {
        assert old_ in r.back && multiset(r.back)[old_] > 0;
        assert multiset(r.free)[old_] == 0;
      }
      assert now.free == r.free + [old_];
      assert old_ in now.free;
    }
  }

  lemma RetireStep(r: Regs, archs: seq<int>, dests: seq<int>, mid: Regs, d: nat, flight: multiset<int>)
    requires r.Ok() && mid.Ok() && |archs| == |dests| && DestsRetired(r, archs, dests, mid)
    requires Conserved(mid, flight) && flight[d] >= 1 && d < |r.file|
    ensures DestsRetired(r, archs + [r.file[d].arch], dests + [d], mid.RetireDest(d))
    ensures Conserved(mid.RetireDest(d), flight - multiset{d})
  {
    RetireDestFacts(mid, d, flight);
    assert multiset(mid.free)[d] == 0;
    assert mid.file[d] == r.file[d];
    assert (archs + [r.file[d].arch])[..|archs|] == archs && (dests + [d])[..|dests|] == dests;
  }

  lemma RetireUnfold(r: Regs, dests: seq<int>, d: nat, flight: multiset<int>)
    requires r.Ok() && multiset(dests + [d]) <= flight
    ensures RetireDests(r, dests + [d]) == RetireDests(r, dests).RetireDest(d)
    ensures multiset(dests) <= flight && (flight - multiset(dests))[d] >= 1
    ensures flight - multiset(dests + [d]) == flight - multiset(dests) - multiset{d}
  {
    assert (dests + [d])[..|dests|] == dests;
    assert multiset(dests + [d]) == multiset(dests) + multiset{d};
    assert multiset(dests + [d])[d] <= flight[d];
  }

  lemma NothingRetired(r: Regs, archs: seq<int>, dests: seq<int>, flight: multiset<int>)
    requires r.Ok() && Conserved(r, flight) && StandFor(r, archs, dests) && dests == []
    ensures DestsRetired(r, archs, dests, RetireDests(r, dests))
    ensures Conserved(RetireDests(r, dests), flight - multiset(dests))
  {
    assert flight - multiset(dests) == flight;
  }

  lemma OneMoreRetired(r: Regs, archs: seq<int>, first: seq<int>, d: nat, flight: multiset<int>)
    requires r.Ok() && |archs| == |first| && d < |r.file| && multiset(first + [d]) <= flight
    requires DestsRetired(r, archs, first, RetireDests(r, first))
    requires Conserved(RetireDests(r, first), flight - multiset(first))
    ensures DestsRetired(r, archs + [r.file[d].arch], first + [d], RetireDests(r, first + [d]))
    ensures Conserved(RetireDests(r, first + [d]), flight - multiset(first + [d]))
  {
    hide *;
    RetireUnfold(r, first, d, flight);
    RetireStep(r, archs, first, RetireDests(r, first), d, flight - multiset(first));
  }

  lemma SplitDests(r: Regs, archs: seq<int>, dests: seq<int>) returns (known: seq<int>, first: seq<int>, d: nat)
    requires StandFor(r, archs, dests) && dests != []
    ensures dests == first + [d] && d < |r.file| && |known| == |first| && archs == known + [r.file[d].arch]
    ensures StandFor(r, known, first) && first == dests[..|dests| - 1]
  {
    first, d := dests[..|dests| - 1], dests[|dests| - 1];
    known := archs[..|first|];
  }

  lemma {:induction false} RetireDestsFacts(r: Regs, archs: seq<int>, dests: seq<int>, flight: multiset<int>)
    requires r.Ok() && Conserved(r, flight) && multiset(dests) <= flight && StandFor(r, archs, dests)
    ensures DestsRetired(r, archs, dests, RetireDests(r, dests))
    ensures Conserved(RetireDests(r, dests), flight - multiset(dests))
    decreases |dests|
  {
    hide *;
    if dests == [] {
      NothingRetired(r, archs, dests, flight);
    } else {
      var known, first, d := SplitDests(r, archs, dests);
      RetireUnfold(r, first, d, flight);
      RetireDestsFacts(r, known, first, flight);
      OneMoreRetired(r, known, first, d, flight);
    }
  }
}
