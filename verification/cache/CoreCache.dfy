/** The set-associative cache as the code has it (internal/components/cache/set_associative.go):
    arrays of ways and counters, updated in place. */
module CoreCache {
  import D = Directory
  import opened SetAssociative

  class SetAssociativeCache {
    const numSets: nat
    const numWays: nat
    const blockSize: nat
    const sets: array2<Slot>
    const lruCounters: array2<nat>
    var lruClock: nat

    ghost predicate Valid()
      reads this
    {
      && numSets > 0 && numWays > 0 && blockSize > 0
      && sets.Length0 == lruCounters.Length0 == numSets && sets.Length1 == lruCounters.Length1 == numWays
    }

    function Shape(): Geometry
      requires Valid()
      reads this
    {
      Geometry(numSets, numWays, blockSize)
    }

    function RowAt(s: nat): (r: Row)
      requires Valid() && s < numSets
      reads this, sets, lruCounters
      ensures |r.lines| == |r.counters| == numWays
    {
      Row(seq(numWays, w requires 0 <= w < numWays && Valid() reads this, sets => sets[s, w]),
          seq(numWays, w requires 0 <= w < numWays && Valid() reads this, lruCounters => lruCounters[s, w]))
    }

    function Contents(): (c: Cache)
      requires Valid()
      reads this, sets, lruCounters
      ensures Shaped(Shape(), c)
    {
      Cache(seq(numSets, s requires 0 <= s < numSets && Valid() reads this, sets, lruCounters => RowAt(s)), lruClock)
    }

    constructor (numSets: int, numWays: int, blockSize: nat)
      ensures Valid() && fresh(sets) && fresh(lruCounters)
      ensures Shape() == Geometry(if numSets <= 0 then 64 else numSets, if numWays <= 0 then 4 else numWays,
                                  if blockSize == 0 then 64 else blockSize)
      ensures Contents() == New(Shape())
    {
      var n := if numSets <= 0 then 64 else numSets;
      var k := if numWays <= 0 then 4 else numWays;
      this.numSets, this.numWays := n, k;
      this.blockSize := if blockSize == 0 then 64 else blockSize;
      sets := new Slot[n, k]((s, w) => Empty);
      lruCounters := new nat[n, k]((s, w) => 0);
      lruClock := 0;
      new;
      assert forall s :: 0 <= s < this.numSets ==> RowAt(s) == New(Shape()).rows[s];
    }

    method FindWayOf(setIdx: nat, blockAddr: nat) returns (way: int, found: bool)
      requires Valid() && setIdx < numSets
      ensures found <==> FindWay(RowAt(setIdx).lines, blockAddr) < numWays
      ensures way == if found then FindWay(RowAt(setIdx).lines, blockAddr) else -1
    {
      for w := 0 to numWays
        invariant forall i :: 0 <= i < w ==> !Holds(RowAt(setIdx).lines[i], blockAddr)
      {
        var line := sets[setIdx, w];
        if line.Line? && line.addr == blockAddr && line.state != D.Invalid {
          assert Holds(RowAt(setIdx).lines[w], blockAddr);
          return w, true;
        }
      }
      return -1, false;
    }

    method FindLRUWay(setIdx: nat) returns (lruWay: nat)
      requires Valid() && setIdx < numSets
      ensures lruWay == LruWay(RowAt(setIdx).counters, numWays)
    {
      lruWay := 0;
      var lruValue := lruCounters[setIdx, 0];
      for w := 1 to numWays
        invariant lruWay == LruWay(RowAt(setIdx).counters, w) && lruValue == lruCounters[setIdx, lruWay]
      {
        if lruCounters[setIdx, w] < lruValue {
          lruValue := lruCounters[setIdx, w];
          lruWay := w;
        }
      }
    }

    /** The line of a way is replaced, and updateLRU makes it the most recent one. */
    method SetWay(setIdx: nat, way: nat, line: Slot)
      requires Valid() && setIdx < numSets && way < numWays
      modifies `lruClock, sets, lruCounters
      ensures Valid() && lruClock == old(lruClock) + 1
      ensures Contents() == Cache(old(Contents()).rows[setIdx := UseWay(old(RowAt(setIdx)), way, line, old(lruClock) + 1)],
                                  old(lruClock) + 1)
    {
      ghost var c := Contents();
      sets[setIdx, way] := line;
      lruClock := lruClock + 1;
      lruCounters[setIdx, way] := lruClock;
      assert RowAt(setIdx) == UseWay(c.rows[setIdx], way, line, lruClock);
      assert forall s :: 0 <= s < numSets && s != setIdx ==> RowAt(s) == c.rows[s];
    }

    method Access(addr: nat, isWrite: bool) returns (hit: bool)
      requires Valid()
      modifies `lruClock, sets, lruCounters
      ensures Valid() && (Contents(), hit) == SetAssociative.Access(Shape(), old(Contents()), addr, isWrite)
    {
      var setIdx := SetIndex(Shape(), addr);
      var way, found := FindWayOf(setIdx, BlockAddr(Shape(), addr));
      if !found {
        return false;
      }
      var line := sets[setIdx, way];
      if isWrite {
        if line.state != D.Modified {
          line := line.(state := D.Modified);
        }
      }
      SetWay(setIdx, way, line);
      return true;
    }

    method Fill(addr: nat, state: D.LineState) returns (evictedAddr: nat, needWriteback: bool)
      requires Valid()
      modifies `lruClock, sets, lruCounters
      ensures Valid() && (Contents(), evictedAddr, needWriteback) == SetAssociative.Fill(Shape(), old(Contents()), addr, state)
    {
      var setIdx, blockAddr := SetIndex(Shape(), addr), BlockAddr(Shape(), addr);
      var way, found := FindWayOf(setIdx, blockAddr);
      if found {
        SetWay(setIdx, way, Line(blockAddr, state));
        return 0, false;
      }
      way := FindLRUWay(setIdx);
      evictedAddr, needWriteback := 0, false;
      if sets[setIdx, way].Line? {
        evictedAddr, needWriteback := sets[setIdx, way].addr, sets[setIdx, way].state == D.Modified;
      }
      SetWay(setIdx, way, Line(blockAddr, state));
    }
  }
}
