/** FullyAssociativeDirectory (internal/components/directory/fully_associative.go) and the
    snoop helpers of the caches (internal/components/cache/coherence.go). */
module Directory {

  // ------------------------------------------------------------------ snoop helpers

  datatype LineState = Invalid | Shared | Exclusive | Modified | Owned

  /** MESIHandleReadSnoop: the new state, and whether to provide data. */
  function ReadSnoop(s: LineState): (LineState, bool) {
    match s
    case Modified => (Shared, true)
    case Exclusive => (Shared, true)
    case Shared => (Shared, false)
    case Invalid => (Invalid, false)
    case _ => (Invalid, false)
  }

  /** MESIHandleWriteSnoop. */
  function WriteSnoop(s: LineState): (LineState, bool) {
    match s
    case Modified => (Invalid, true)
    case Exclusive => (Invalid, true)
    case Shared => (Invalid, false)
    case Invalid => (Invalid, false)
    case _ => (Invalid, false)
  }

  // ------------------------------------------------------------------ the directory

  datatype EntryState = NotPresent | DirShared | DirExclusive | DirModified

  datatype Entry = Entry(state: EntryState, sharers: seq<int>, owner: int)

  datatype Action = Action(
    invalidateList: seq<int>, forwarder: int, needMemory: bool, newState: EntryState, grantExclusive: bool)

  datatype Option<T> = None | Some(value: T)

  type Addr = nat

  /** An entry that made room for another, as the evict callback sees it. */
  datatype Eviction = Eviction(addr: Addr, entry: Entry)

  function Others(s: seq<int>, r: int): seq<int> {
    if s == [] then []
    else if s[|s| - 1] != r then Others(s[..|s| - 1], r) + [s[|s| - 1]]
    else Others(s[..|s| - 1], r)
  }

  lemma {:induction false} OthersAreTheRest(s: seq<int>, r: int)
    ensures forall n :: n in Others(s, r) <==> n in s && n != r
  {
    if s != [] {
      OthersAreTheRest(s[..|s| - 1], r);
      assert s == s[..|s| - 1] + [s[|s| - 1]];
    }
  }

  /** What HandleMESIRequest answers when the address has an entry that is in use, and the
      entry it leaves behind. */
  function Respond(e: Entry, r: int, isWrite: bool): (Entry, Action) {
    match e.state
    case NotPresent => (e, Action([], -1, false, NotPresent, false))
    case DirExclusive =>
      if isWrite then
        if e.owner == r
        then (e.(state := DirModified), Action([], -1, false, DirModified, true))
        else (Entry(DirModified, [], r), Action([e.owner], e.owner, false, DirModified, true))
      else
        if e.owner == r
        then (e, Action([], -1, false, DirExclusive, false))
        else (Entry(DirShared, [e.owner, r], -1), Action([], e.owner, false, DirShared, false))
    case DirModified =>
      if isWrite then
        if e.owner == r
        then (e, Action([], -1, false, DirModified, true))
        else (e.(owner := r), Action([e.owner], e.owner, false, DirModified, true))
      else
        if e.owner == r
        then (e, Action([], -1, false, DirModified, false))
        else (Entry(DirShared, [e.owner, r], -1), Action([], e.owner, false, DirShared, false))
    case DirShared =>
      var forwarder := if r !in e.sharers && |e.sharers| > 0 then e.sharers[0] else -1;
      var needMemory := r !in e.sharers && |e.sharers| == 0;
      if isWrite
      then (Entry(DirModified, [], r), Action(Others(e.sharers, r), forwarder, needMemory, DirModified, true))
      else (e.(sharers := if r in e.sharers then e.sharers else e.sharers + [r]),
            Action([], forwarder, needMemory, DirShared, false))
  }

  predicate InUse(entries: map<Addr, Entry>, a: Addr) {
    a in entries && entries[a].state != NotPresent
  }

  /** The first access to a line is granted exclusively, and read from memory. */
  const FIRST_ACCESS := Action([], -1, true, DirExclusive, true)

  function FirstEntry(r: int, isWrite: bool): Entry {
    Entry(DirExclusive, if isWrite then [] else [r], r)
  }

  /** HandleMESIRequest on the whole table: the new table, the answer, and the entries that
      had to make room. `victim` is where the random choice falls if the table is full. */
  function Handle(entries: map<Addr, Entry>, capacity: nat, a: Addr, r: int, isWrite: bool, victim: Addr)
    : (map<Addr, Entry>, Action, seq<Eviction>)
    requires capacity <= |entries| ==> victim in entries
  {
    if InUse(entries, a) then
      (entries[a := Respond(entries[a], r, isWrite).0], Respond(entries[a], r, isWrite).1, [])
    else if |entries| < capacity then
      (entries[a := FirstEntry(r, isWrite)], FIRST_ACCESS, [])
    else
      ((entries - {victim})[a := FirstEntry(r, isWrite)], FIRST_ACCESS, [Eviction(victim, entries[victim])])
  }

  class FullyAssociativeDirectory {
    const capacity: nat
    var entries: map<Addr, Entry>
    /** The calls made to the evict callback. */
    var evictions: seq<Eviction>

    /** A capacity that is not positive becomes 64. */
    constructor (capacity: int)
      ensures this.capacity == (if capacity <= 0 then 64 else capacity)
      ensures entries == map[] && evictions == []
    {
      this.capacity := if capacity <= 0 then 64 else capacity;
      entries, evictions := map[], [];
    }

    /** ensureCapacity; `victim` is the entry the random choice falls on. */
    method EnsureCapacity(victim: Addr)
      requires capacity <= |entries| ==> victim in entries
      modifies this
      ensures old(|entries|) < capacity ==> entries == old(entries) && evictions == old(evictions)
      ensures capacity <= old(|entries|) ==>
                && entries == old(entries) - {victim}
                && evictions == old(evictions) + [Eviction(victim, old(entries)[victim])]
    {
      if |entries| < capacity {
        return;
      }
      evictions := evictions + [Eviction(victim, entries[victim])];
      entries := entries - {victim};
    }

    /** HandleMESIRequest. */
    method HandleMESIRequest(a: Addr, r: int, isWrite: bool, victim: Addr) returns (action: Action)
      requires capacity <= |entries| ==> victim in entries
      requires 0 < capacity && |entries| <= capacity
      modifies this
      ensures |entries| <= capacity
      ensures (entries, action, evictions) ==
              var (entries', action', evicted) := Handle(old(entries), capacity, a, r, isWrite, victim);
              (entries', action', old(evictions) + evicted)
    {
      action := Action([], -1, false, NotPresent, false);
      if a !in entries || entries[a].state == NotPresent {
        action := action.(needMemory := true, newState := DirExclusive, grantExclusive := true);
        EnsureCapacity(victim);
        ghost var room := entries;
        if isWrite {
          entries := entries[a := Entry(DirExclusive, [], r)];
        } else {
          entries := entries[a := Entry(DirExclusive, [r], r)];
        }
        SizeAfterInsert(room, a, entries[a]);
        assert action == FIRST_ACCESS && entries == room[a := FirstEntry(r, isWrite)];
        assert evictions == old(evictions) + (if old(|entries|) < capacity then [] else [Eviction(victim, old(entries)[victim])]);
        return;
      }
      SizeAfterUpdate(entries, a, Respond(entries[a], r, isWrite).0);
      action := HandleInUse(a, r, isWrite);
      assert evictions == old(evictions) + [];
    }

    /** Cases 2 to 4 of HandleMESIRequest: the entry is in use. */
    method HandleInUse(a: Addr, r: int, isWrite: bool) returns (action: Action)
      requires InUse(entries, a)
      modifies `entries
      ensures entries == old(entries)[a := Respond(old(entries)[a], r, isWrite).0]
      ensures action == Respond(old(entries)[a], r, isWrite).1
    {
      action := Action([], -1, false, NotPresent, false);
      SizeAfterUpdate(entries, a, entries[a]);
      var entry := entries[a];
      var owner := entry.owner;
      if entry.state == DirExclusive {
        if isWrite {
          action := action.(newState := DirModified, grantExclusive := true);
          if owner == r {
            entries := entries[a := entry.(state := DirModified)];
          } else {
            action := action.(invalidateList := [owner], forwarder := owner);
            entries := entries[a := Entry(DirModified, [], r)];
          }
        } else if owner == r {
          action := action.(newState := DirExclusive);
        } else {
          action := action.(forwarder := owner, newState := DirShared);
          entries := entries[a := Entry(DirShared, [owner, r], -1)];
        }
      } else if entry.state == DirModified {
        if isWrite {
          action := action.(newState := DirModified, grantExclusive := true);
          if owner != r {
            action := action.(invalidateList := [owner], forwarder := owner);
            entries := entries[a := entry.(owner := r)];
          }
        } else if owner == r {
          action := action.(newState := DirModified);
        } else {
          action := action.(forwarder := owner, newState := DirShared);
          entries := entries[a := Entry(DirShared, [owner, r], -1)];
        }
      } else {
        action := HandleShared(a, r, isWrite);
      }
    }

    /** Case 4 of HandleMESIRequest: the line is shared. */
    method HandleShared(a: Addr, r: int, isWrite: bool) returns (action: Action)
      requires a in entries && entries[a].state == DirShared
      modifies `entries
      ensures entries == old(entries)[a := Respond(old(entries)[a], r, isWrite).0]
      ensures action == Respond(old(entries)[a], r, isWrite).1
    {
      action := Action([], -1, false, NotPresent, false);
      var entry := entries[a];
      if isWrite {
        for i := 0 to |entry.sharers|
          invariant action == Action(Others(entry.sharers[..i], r), -1, false, NotPresent, false)
        {
          assert entry.sharers[..i + 1][..i] == entry.sharers[..i];
          if entry.sharers[i] != r {
            action := action.(invalidateList := action.invalidateList + [entry.sharers[i]]);
          }
        }
        assert entry.sharers[..|entry.sharers|] == entry.sharers;
      }
      var isSharer := IsSharer(entry.sharers, r);
      if !isSharer {
        if |entry.sharers| > 0 {
          action := action.(forwarder := entry.sharers[0]);
        } else {
          action := action.(needMemory := true);
        }
      }
      if isWrite {
        action := action.(newState := DirModified, grantExclusive := true);
        entries := entries[a := Entry(DirModified, [], r)];
      } else {
        if !isSharer {
          entries := entries[a := entry.(sharers := entry.sharers + [r])];
        }
        action := action.(newState := DirShared);
      }
    }

    static method IsSharer(sharers: seq<int>, r: int) returns (found: bool)
      ensures found == (r in sharers)
    {
      for i := 0 to |sharers|
        invariant r !in sharers[..i]
      {
        if sharers[i] == r {
          return true;
        }
      }
      return false;
    }
  }

  lemma SizeAfterInsert(entries: map<Addr, Entry>, a: Addr, e: Entry)
    ensures |entries[a := e]| <= |entries| + 1
  {
    if a in entries {
      assert entries[a := e].Keys == entries.Keys;
      assert |entries[a := e].Keys| == |entries.Keys|;
    } else {
      assert entries[a := e].Keys == entries.Keys + {a};
    }
  }

  lemma SizeAfterUpdate(entries: map<Addr, Entry>, a: Addr, e: Entry)
    requires a in entries
    ensures |entries[a := e]| == |entries|
    ensures entries[a := entries[a]] == entries
  {
    assert entries[a := e].Keys == entries.Keys;
    assert |entries[a := e].Keys| == |entries.Keys|;
  }
}
