/** The cache with miss handling as the code has it
    (internal/capabilities/cache/set_associative_cache.go): each method is proved to be a
    function of module MissRuns. */
module MissHandling {
  import D = Directory
  import opened MSHR
  import opened SetAssociative
  import opened MissRuns
  import CoreCache

  class SetAssociativeCache {
    const core: CoreCache.SetAssociativeCache
    const mshr: MSHRQueue
    const hitLatency: nat
    const fillLatency: nat
    var hasLowerLevel: bool
    var standaloneMode: bool
    var sent: seq<nat>
    ghost var joined: seq<(nat, nat)>
    ghost var released: seq<(nat, nat)>

    ghost predicate Valid()
      reads core
    {
      core.Valid() && mshr.maxSize > 0
    }

    ghost function Settings(): Config
      requires Valid()
      reads `hasLowerLevel, `standaloneMode, core
    {
      Config(core.Shape(), mshr.maxSize, hitLatency, fillLatency,
             if hasLowerLevel then LowerLevel else if standaloneMode then Standalone else Nobody)
    }

    ghost function Contents(): (s: State)
      requires Valid()
      reads this, core, core.sets, core.lruCounters, mshr
      ensures Shaped(core.Shape(), s.cache)
    {
      State(core.Contents(), mshr.entries, sent, joined, released)
    }

    constructor (g: Geometry, mshrSize: int, hitLatency: nat, fillLatency: nat)
      requires mshrSize > 0  // the configuration is rejected otherwise
      ensures Valid() && fresh(core) && fresh(core.sets) && fresh(core.lruCounters) && fresh(mshr)
      ensures Settings() == Config(g, mshrSize, hitLatency, fillLatency, Standalone)
      ensures Contents() == Run(Settings(), [])
    {
      core := new CoreCache.SetAssociativeCache(g.numSets, g.numWays, g.blockSize);
      mshr := new MSHRQueue(mshrSize);
      this.hitLatency, this.fillLatency := hitLatency, fillLatency;
      hasLowerLevel, standaloneMode := false, true;
      sent, joined, released := [], [], [];
    }

    /** A lower level ends standalone mode. */
    method SetLowerLevel(present: bool)
      requires Valid()
      modifies `hasLowerLevel, `standaloneMode
      ensures Valid() && hasLowerLevel == present && standaloneMode == (old(standaloneMode) && !present)
    {
      hasLowerLevel := present;
      if present {
        standaloneMode := false;
      }
    }

    method SetStandaloneMode(standalone: bool)
      modifies `standaloneMode
      ensures standaloneMode == standalone
    {
      standaloneMode := standalone;
    }

    method Access(addr: nat, instrID: nat, isWrite: bool, cycle: nat)
      returns (hit: bool, readyCycle: nat, mshrIndex: int)
      requires Valid()
      modifies `sent, `joined, `released, core`lruClock, core.sets, core.lruCounters, mshr
      ensures Valid()
      ensures (Contents(), Reply(hit, readyCycle, mshrIndex)) ==
              MissRuns.Access(Settings(), old(Contents()), addr, instrID, isWrite, cycle)
    {
      hit := core.Access(addr, isWrite);
      if hit {
        return true, cycle + hitLatency, -1;
      }
      hit, readyCycle, mshrIndex := HandleMiss(addr, instrID, cycle);
    }

    method HandleMiss(addr: nat, instrID: nat, cycle: nat) returns (hit: bool, readyCycle: nat, mshrIndex: int)
      requires Valid()
      modifies `sent, `joined, `released, core`lruClock, core.sets, core.lruCounters, mshr
      ensures Valid()
      ensures (Contents(), Reply(hit, readyCycle, mshrIndex)) ==
              MissRuns.HandleMiss(Settings(), old(Contents()), addr, instrID, cycle)
    {
      var blockAddr := BlockAddr(core.Shape(), addr);
      var existingIndex, found := mshr.Find(blockAddr);
      ghost var known := instrID in Waiting(mshr.entries, blockAddr);
      if found {
        mshr.Merge(existingIndex, instrID);
        joined := if known then joined else joined + [(blockAddr, instrID)];
        return false, mshr.entries[existingIndex].readyCycle, existingIndex;
      }
      if mshr.IsFull() {
        return false, cycle + hitLatency + fillLatency, -1;
      }
      var success;
      mshrIndex, success := mshr.Allocate(Entry(blockAddr, cycle + fillLatency, [instrID]));
      joined := joined + [(blockAddr, instrID)];
      if hasLowerLevel {
        sent := sent + [blockAddr];
      } else if standaloneMode {
        HandleFill(blockAddr);
      }
      return false, cycle + fillLatency, mshrIndex;
    }

    method HandleFill(addr: nat)
      requires Valid()
      modifies `released, core`lruClock, core.sets, core.lruCounters, mshr
      ensures Valid() && Contents() == MissRuns.HandleFill(Settings(), old(Contents()), addr)
    {
      var blockAddr := BlockAddr(core.Shape(), addr);
      released := released + Pairs(blockAddr, Waiting(mshr.entries, blockAddr));
      var removed := mshr.RemoveByAddress(blockAddr);
      var _, needWriteback := core.Fill(blockAddr, D.Exclusive);
    }
  }
}
