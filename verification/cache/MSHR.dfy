/** MSHRQueue (internal/capabilities/cache/mshr.go): the misses under way, one entry per
    block, each with the instructions that wait for it. The mark for merged entries is never
    set by the code and is left out. */
module MSHR {

  datatype Entry = Entry(address: nat, readyCycle: nat, dependents: seq<nat>)

  datatype Option<T> = None | Some(value: T)

  /** The first entry for the address, or the number of entries. */
  function FindEntry(entries: seq<Entry>, addr: nat): (i: nat)
    ensures i <= |entries|
    ensures i < |entries| ==> entries[i].address == addr
    ensures forall j :: 0 <= j < i ==> entries[j].address != addr
  {
    if entries == [] || entries[0].address == addr then 0 else 1 + FindEntry(entries[1..], addr)
  }

  function Join(ids: seq<nat>, id: nat): seq<nat> {
    if id in ids then ids else ids + [id]
  }

  class MSHRQueue {
    const maxSize: int
    var entries: seq<Entry>

    constructor (maxSize: int)
      ensures this.maxSize == maxSize && entries == []
    {
      this.maxSize, entries := maxSize, [];
    }

    predicate IsFull()
      reads this
    {
      |entries| >= maxSize
    }

    method Find(addr: nat) returns (index: int, found: bool)
      ensures found <==> FindEntry(entries, addr) < |entries|
      ensures index == if found then FindEntry(entries, addr) else -1
    {
      for i := 0 to |entries|
        invariant forall j :: 0 <= j < i ==> entries[j].address != addr
      {
        if entries[i].address == addr {
          return i, true;
        }
      }
      return -1, false;
    }

    method Allocate(entry: Entry) returns (index: int, success: bool)
      modifies this
      ensures success == (|old(entries)| < maxSize)
      ensures entries == if success then old(entries) + [entry] else old(entries)
      ensures index == if success then |old(entries)| else -1
    {
      if IsFull() {
        return -1, false;
      }
      entries := entries + [entry];
      return |entries| - 1, true;
    }

    /** The instruction waits for the entry too, once. */
    method Merge(index: int, instrID: nat)
      modifies this
      ensures entries == if 0 <= index < |old(entries)|
                         then old(entries)[index := old(entries)[index].(dependents := Join(old(entries)[index].dependents, instrID))]
                         else old(entries)
    {
      if index < 0 || index >= |entries| {
        return;
      }
      var entry := entries[index];
      for i := 0 to |entry.dependents|
        invariant entries == old(entries) && instrID !in entry.dependents[..i]
      {
        if entry.dependents[i] == instrID {
          return;
        }
      }
      entries := entries[index := entry.(dependents := entry.dependents + [instrID])];
    }

    method Remove(index: int) returns (removed: Option<Entry>)
      modifies this
      ensures if 0 <= index < |old(entries)|
              then removed == Some(old(entries)[index]) && entries == old(entries)[..index] + old(entries)[index + 1..]
              else removed == None && entries == old(entries)
    {
      if index < 0 || index >= |entries| {
        return None;
      }
      removed := Some(entries[index]);
      entries := entries[..index] + entries[index + 1..];
    }

    method RemoveByAddress(addr: nat) returns (removed: Option<Entry>)
      modifies this
      ensures (entries, removed) == Taken(old(entries), addr)
    {
      var index, found := Find(addr);
      if !found {
        return None;
      }
      removed := Remove(index);
    }
  }

  function Taken(entries: seq<Entry>, addr: nat): (seq<Entry>, Option<Entry>) {
    var i := FindEntry(entries, addr);
    if i == |entries| then (entries, None) else (entries[..i] + entries[i + 1..], Some(entries[i]))
  }

  // ------------------------------------------------ the queue as a map

  /** What handleMiss does to the queue for a miss of `block`. */
  function Miss(entries: seq<Entry>, maxSize: int, block: nat, instr: nat, readyCycle: nat): seq<Entry> {
    var i := FindEntry(entries, block);
    if i < |entries| then entries[i := entries[i].(dependents := Join(entries[i].dependents, instr))]
    else if |entries| >= maxSize then entries
    else entries + [Entry(block, readyCycle, [instr])]
  }

  /** The instructions that wait for a block. */
  function Waiting(entries: seq<Entry>, block: nat): seq<nat> {
    var i := FindEntry(entries, block);
    if i < |entries| then entries[i].dependents else []
  }

  predicate OnePerBlock(entries: seq<Entry>) {
    forall i, j :: 0 <= i < j < |entries| ==> entries[i].address != entries[j].address
  }

  lemma FindUnique(entries: seq<Entry>, i: nat)
    requires OnePerBlock(entries) && i < |entries|
    ensures FindEntry(entries, entries[i].address) == i
  {
  }

  /** A miss is recorded with its block, unless the queue is full, and with no other. */
  lemma MissIsRecorded(entries: seq<Entry>, maxSize: int, block: nat, instr: nat, readyCycle: nat, other: nat)
    requires OnePerBlock(entries)
    ensures var after := Miss(entries, maxSize, block, instr, readyCycle);
            && OnePerBlock(after)
            && (|entries| <= maxSize ==> |after| <= maxSize)
            && Waiting(after, other) ==
               if other != block || (FindEntry(entries, block) == |entries| && |entries| >= maxSize)
               then Waiting(entries, other) else Join(Waiting(entries, block), instr)
  {
    var after := Miss(entries, maxSize, block, instr, readyCycle);
    var i := FindEntry(after, other);
    var j := FindEntry(entries, other);
    if i < |after| && i < |entries| {
      FindUnique(entries, i);
    }
    if j < |entries| {
      FindUnique(after, j);
    }
  }

  /** Another block's entry, if there is one, is still there, and no new one is. */
  lemma OthersStay(entries: seq<Entry>, at: nat, after: seq<Entry>, other: nat)
    requires OnePerBlock(entries) && at < |entries| && after == entries[..at] + entries[at + 1..]
    requires other != entries[at].address
    ensures Waiting(after, other) == Waiting(entries, other)
  {
    var i, j := FindEntry(after, other), FindEntry(entries, other);
    if j < |entries| {
      assert after[if j < at then j else j - 1] == entries[j];
    }
    if i < |after| {
      assert after[i] == entries[if i < at then i else i + 1];
      FindUnique(entries, if i < at then i else i + 1);
    }
  }

  lemma WithoutEntry(entries: seq<Entry>, at: nat, other: nat)
    requires OnePerBlock(entries) && at < |entries|
    ensures var after := entries[..at] + entries[at + 1..];
            && OnePerBlock(after)
            && Waiting(after, other) == if other == entries[at].address then [] else Waiting(entries, other)
  {
    hide Waiting;
    var after := entries[..at] + entries[at + 1..];
    assert forall k :: 0 <= k < |after| ==> after[k] == entries[if k < at then k else k + 1];
    if other == entries[at].address {
      NobodyWaits(after, other);
    } else {
      OthersStay(entries, at, after, other);
    }
  }

  lemma NobodyWaits(entries: seq<Entry>, block: nat)
    requires forall i :: 0 <= i < |entries| ==> entries[i].address != block
    ensures Waiting(entries, block) == []
  {
  }

  /** A fill hands out everything that waits for its block, and leaves the other blocks. */
  lemma FillReleasesAll(entries: seq<Entry>, block: nat, other: nat)
    requires OnePerBlock(entries)
    ensures var (after, taken) := Taken(entries, block);
            && OnePerBlock(after)
            && (if taken == None then Waiting(entries, block) == [] else taken.value.dependents == Waiting(entries, block))
            && Waiting(after, other) == if other == block then [] else Waiting(entries, other)
  {
    var at := FindEntry(entries, block);
    if at < |entries| {
      WithoutEntry(entries, at, other);
    }
  }
}
