/** The register allocator as the code has it: two tables of 256 entries and the register
    file, updated in place, and a free list. Every operation is the one of module Renaming. */
module RegisterAllocator {
  import opened Renaming

  class RegisterAllocator {
    const frontendRAT: array<int>
    const backendRAT: array<int>
    const physicalRegisterFile: array<PhysicalRegister>
    var freeRegisters: seq<int>

    function State(): Regs
      reads this, frontendRAT, backendRAT, physicalRegisterFile
    {
      Regs(frontendRAT[..], backendRAT[..], freeRegisters, physicalRegisterFile[..])
    }

    ghost predicate Valid()
      reads this, frontendRAT, backendRAT, physicalRegisterFile
    {
      frontendRAT != backendRAT && State().Ok()
    }

    constructor (numPhysical: nat)
      ensures Valid() && fresh(frontendRAT) && fresh(backendRAT) && fresh(physicalRegisterFile)
      ensures State() == Initial(numPhysical)
    {
      frontendRAT := new int[256](_ => INVALID);
      backendRAT := new int[256](_ => INVALID);
      physicalRegisterFile := new PhysicalRegister[numPhysical](_ => PhysicalRegister(0, 0, false, false));
      freeRegisters := [];
      new;
      for i := 0 to numPhysical
        invariant freeRegisters == seq(i, j => j)
        invariant frontendRAT != backendRAT
        invariant frontendRAT[..] == seq(256, _ => INVALID) && backendRAT[..] == seq(256, _ => INVALID)
        invariant physicalRegisterFile[..] == seq(numPhysical, _ => PhysicalRegister(0, 0, false, false))
      {
        freeRegisters := freeRegisters + [i];
      }
    }

    /** Panics on an empty free list, which the precondition excludes. */
    method RenameDestRegister(archReg: Arch, producerID: nat) returns (physReg: int)
      requires Valid() && |freeRegisters| > 0
      modifies this, frontendRAT, physicalRegisterFile
      ensures Valid() && State() == old(State()).RenameDest(archReg, producerID)
      ensures physReg == old(freeRegisters)[0]
    {
      physReg := freeRegisters[0];
      freeRegisters := freeRegisters[1..];
      frontendRAT[archReg] := physReg;
      physicalRegisterFile[physReg] := PhysicalRegister(archReg, producerID, false, true);
      assert State() == old(State()).RenameDest(archReg, producerID);
    }

    method RenameSrcRegister(archReg: Arch) returns (physReg: int)
      requires Valid() && (State().IsAllocated(archReg) || |freeRegisters| > 0)
      modifies this, frontendRAT, backendRAT, physicalRegisterFile
      ensures Valid() && State() == old(State()).RenameSrc(archReg)
      ensures physReg == State().front[archReg]
    {
      physReg := frontendRAT[archReg];
      if physReg == INVALID {
        physReg := freeRegisters[0];
        freeRegisters := freeRegisters[1..];
        frontendRAT[archReg] := physReg;
        backendRAT[archReg] := physReg;
        physicalRegisterFile[physReg] := PhysicalRegister(archReg, 0, true, true);
      }
      assert State() == old(State()).RenameSrc(archReg);
    }

    method CompleteDestRegister(physReg: nat)
      requires Valid()
      modifies physicalRegisterFile
      ensures Valid() && State() == old(State()).CompleteDest(physReg)
    {
      if physReg >= physicalRegisterFile.Length {
        return;
      }
      physicalRegisterFile[physReg] := physicalRegisterFile[physReg].(valid := true);
      assert State() == old(State()).CompleteDest(physReg);
    }

    method RetireDestRegister(physReg: nat)
      requires Valid()
      modifies this, backendRAT, physicalRegisterFile
      ensures Valid() && State() == old(State()).RetireDest(physReg)
    {
      if physReg >= physicalRegisterFile.Length {
        return;
      }
      var archReg := physicalRegisterFile[physReg].arch;
      var oldPhysReg := backendRAT[archReg];
      backendRAT[archReg] := physReg;
      assert State() == old(State()).(back := old(State()).back[archReg := physReg]);
      if oldPhysReg != INVALID {
        FreeRegister(oldPhysReg);
      }
    }

    method FreeRegister(physReg: nat)
      requires Valid()
      modifies this, physicalRegisterFile
      ensures Valid() && State() == old(State()).Free(physReg)
    {
      if physReg >= physicalRegisterFile.Length {
        return;
      }
      physicalRegisterFile[physReg] := CLEARED;
      freeRegisters := freeRegisters + [physReg];
      assert State() == old(State()).Free(physReg);
    }

    predicate IsValid(physReg: int)
      reads this, frontendRAT, backendRAT, physicalRegisterFile
      ensures IsValid(physReg) == State().IsValid(physReg)
    {
      physReg >= physicalRegisterFile.Length || physReg < 0 || physicalRegisterFile[physReg].valid
    }

    predicate IsAllocated(archReg: Arch)
      requires Valid()
      reads this, frontendRAT, backendRAT, physicalRegisterFile
      ensures IsAllocated(archReg) == State().IsAllocated(archReg)
    {
      frontendRAT[archReg] != INVALID
    }

    /** CountRegDependencies. */
    method CountRegDependencies(srcs: seq<int>) returns (count: nat)
      requires Valid()
      ensures count == Dependencies(State(), srcs)
    {
      count := 0;
      for i := 0 to |srcs|
        invariant count == Dependencies(State(), srcs[..i])
      {
        assert srcs[..i + 1][..i] == srcs[..i];
        if srcs[i] >= 0 && !IsValid(srcs[i]) {
          count := count + 1;
        }
      }
      assert srcs[..|srcs|] == srcs;
    }

    // ------------------------------------------------ the loops over operands

    /** How many free registers the count check of schedule asks for. */
    method CountNeeds(srcs: seq<int>, dests: seq<int>) returns (count: nat)
      requires Valid()
      ensures count == Unallocated(State(), srcs) + CountValid(dests)
    {
      var sources := 0;
      for i := 0 to |srcs|
        invariant sources == Unallocated(State(), srcs[..i])
      {
        assert srcs[..i + 1][..i] == srcs[..i];
        if srcs[i] >= 0 && !IsAllocated(Uint8(srcs[i])) {
          sources := sources + 1;
        }
      }
      assert srcs[..|srcs|] == srcs;
      var destCount := 0;
      for i := 0 to |dests|
        invariant destCount == CountValid(dests[..i])
      {
        assert dests[..i + 1][..i] == dests[..i];
        if dests[i] >= 0 {
          destCount := destCount + 1;
        }
      }
      assert dests[..|dests|] == dests;
      count := sources + destCount;
    }

    /** The first loop of doScheduling. */
    method RenameSources(srcs: seq<int>) returns (out: seq<int>)
      requires Valid() && Unallocated(State(), srcs) <= |freeRegisters|
      modifies this, frontendRAT, backendRAT, physicalRegisterFile
      ensures Valid() && (State(), out) == RenameSrcs(old(State()), srcs)
    {
      ghost var r := State();
      out := [];
      for i := 0 to |srcs|
        invariant Valid()
        invariant Unallocated(r, srcs[..i]) <= |r.free|
        invariant (State(), out) == RenameSrcs(r, srcs[..i])
      {
        PrefixNeedsLess(r, srcs, i + 1);
        assert srcs[..i + 1][..i] == srcs[..i];
        if srcs[i] >= 0 {
          var physReg := RenameSrcRegister(Uint8(srcs[i]));
          out := out + [physReg];
        } else {
          out := out + [srcs[i]];
        }
      }
      assert srcs[..|srcs|] == srcs;
    }

    /** The second loop of doScheduling. */
    method RenameDestinations(dests: seq<int>, id: nat) returns (out: seq<int>)
      requires Valid() && CountValid(dests) <= |freeRegisters|
      modifies this, frontendRAT, physicalRegisterFile
      ensures Valid() && (State(), out) == RenameDests(old(State()), dests, id)
    {
      ghost var r := State();
      out := [];
      for i := 0 to |dests|
        invariant Valid()
        invariant CountValid(dests[..i]) <= |r.free|
        invariant (State(), out) == RenameDests(r, dests[..i], id)
      {
        PrefixHasFewer(dests, i + 1);
        assert dests[..i + 1][..i] == dests[..i];
        if dests[i] >= 0 {
          var physReg := RenameDestRegister(Uint8(dests[i]), id);
          out := out + [physReg];
        } else {
          out := out + [dests[i]];
        }
      }
      assert dests[..|dests|] == dests;
    }

    /** The loop of doCompleteExecution. */
    method CompleteDestinations(dests: seq<int>)
      requires Valid()
      modifies physicalRegisterFile
      ensures Valid() && State() == CompleteDests(old(State()), dests)
    {
      ghost var r := State();
      for i := 0 to |dests|
        invariant Valid() && State() == CompleteDests(r, dests[..i])
      {
        assert dests[..i + 1][..i] == dests[..i];
        if dests[i] >= 0 {
          CompleteDestRegister(dests[i]);
        }
      }
      assert dests[..|dests|] == dests;
    }

    /** The loop over destinations in retire. */
    method RetireDestinations(dests: seq<int>)
      requires Valid()
      modifies this, backendRAT, physicalRegisterFile
      ensures Valid() && State() == RetireDests(old(State()), dests)
    {
      ghost var r := State();
      for i := 0 to |dests|
        invariant Valid() && State() == RetireDests(r, dests[..i])
      {
        assert dests[..i + 1][..i] == dests[..i];
        if dests[i] >= 0 {
          RetireDestRegister(dests[i]);
        }
      }
      assert dests[..|dests|] == dests;
    }
  }

  lemma {:induction false} PrefixNeedsLess(r: Regs, srcs: seq<int>, n: nat)
    requires |r.front| == 256 && n <= |srcs|
    ensures Unallocated(r, srcs[..n]) <= Unallocated(r, srcs)
    decreases |srcs|
  {
    if n < |srcs| {
      PrefixNeedsLess(r, srcs[..|srcs| - 1], n);
      assert srcs[..|srcs| - 1][..n] == srcs[..n];
    } else {
      assert srcs[..n] == srcs;
    }
  }

  lemma {:induction false} PrefixHasFewer(regs: seq<int>, n: nat)
    requires n <= |regs|
    ensures CountValid(regs[..n]) <= CountValid(regs)
    decreases |regs|
  {
    if n < |regs| {
      PrefixHasFewer(regs[..|regs| - 1], n);
      assert regs[..|regs| - 1][..n] == regs[..n];
    } else {
      assert regs[..n] == regs;
    }
  }
}
