/** InputQueue (internal/core/queue/input_queue.go): slots, a bitmap of free ones, block
    reasons, a cached length, and the ready declarations to upstream. Its tick is proved to
    do what module Credits says on lengths, and to store exactly the packets it receives. */
module InputQueue {
  import opened Packets
  import opened Credits

  ghost function Cell<T>(p: PacketWithCycle<T>, free: bool): multiset<PacketWithCycle<T>> {
    if free then multiset{} else multiset{p}
  }

  /** The packets in occupied slots. */
  ghost function Stored<T>(slots: seq<PacketWithCycle<T>>, free: seq<bool>): multiset<PacketWithCycle<T>>
    requires |slots| == |free|
  {
    if slots == [] then multiset{}
    else
      var n := |slots| - 1;
      Stored(slots[..n], free[..n]) + Cell(slots[n], free[n])
  }

  /** How many slots are occupied. */
  function Occupied(free: seq<bool>): nat {
    if free == [] then 0
    else Occupied(free[..|free| - 1]) + if free[|free| - 1] then 0 else 1
  }

  lemma {:induction false} OccupiedAfterUpdate(free: seq<bool>, i: int, f: bool)
    requires 0 <= i < |free|
    ensures Occupied(free[i := f]) == Occupied(free) - (if free[i] then 0 else 1) + (if f then 0 else 1)
    decreases |free|
  {
    var n := |free| - 1;
    if i == n {
      assert free[i := f][..n] == free[..n];
    } else {
      OccupiedAfterUpdate(free[..n], i, f);
      assert free[i := f][..n] == free[..n][i := f];
    }
  }

  /** All slots are occupied exactly when no slot is free. */
  lemma {:induction false} OccupiedBound(free: seq<bool>)
    ensures Occupied(free) <= |free|
    ensures Occupied(free) == |free| <==> forall i :: 0 <= i < |free| ==> !free[i]
    decreases |free|
  {
    if free != [] {
      OccupiedBound(free[..|free| - 1]);
    }
  }

  lemma {:induction false} NothingIsAvailable(free: seq<bool>)
    requires Occupied(free) == 0
    ensures forall i :: 0 <= i < |free| ==> free[i]
    decreases |free|
  {
    if free != [] {
      NothingIsAvailable(free[..|free| - 1]);
    }
  }

  /** Changing one slot exchanges its contribution. */
  lemma {:induction false} StoredAfterUpdate<T>(slots: seq<PacketWithCycle<T>>, free: seq<bool>, i: int,
                                                p: PacketWithCycle<T>, f: bool)
    requires |slots| == |free| && 0 <= i < |free|
    ensures Stored(slots[i := p], free[i := f]) + Cell(slots[i], free[i]) == Stored(slots, free) + Cell(p, f)
    decreases |slots|
  {
    hide Stored, Cell;
    var n := |slots| - 1;
    var slots', free' := slots[i := p], free[i := f];
    LastSlot(slots, free);
    LastSlot(slots', free');
    if i == n {
      assert slots'[..n] == slots[..n] && free'[..n] == free[..n];
      SwapLast(Stored(slots[..n], free[..n]), Cell(p, f), Cell(slots[n], free[n]));
    } else {
      StoredAfterUpdate(slots[..n], free[..n], i, p, f);
      assert slots'[..n] == slots[..n][i := p] && free'[..n] == free[..n][i := f];
      AddToBoth(Stored(slots'[..n], free'[..n]), Cell(slots[i], free[i]),
                Stored(slots[..n], free[..n]), Cell(p, f), Cell(slots[n], free[n]));
    }
  }

  lemma SwapLast<T>(a: multiset<T>, b: multiset<T>, c: multiset<T>)
    ensures (a + b) + c == (a + c) + b
  {
  }

  lemma LastSlot<T>(slots: seq<PacketWithCycle<T>>, free: seq<bool>)
    requires |slots| == |free| > 0
    ensures var n := |slots| - 1;
            Stored(slots, free) == Stored(slots[..n], free[..n]) + Cell(slots[n], free[n])
  {
  }

  lemma AddToBoth<T>(a: multiset<T>, c: multiset<T>, b: multiset<T>, d: multiset<T>, e: multiset<T>)
    requires a + c == b + d
    ensures (a + e) + c == (b + e) + d
  {
    assert (a + e) + c == (a + c) + e;
    assert (b + e) + d == (b + d) + e;
  }

  lemma {:induction false} NothingStored<T>(slots: seq<PacketWithCycle<T>>, free: seq<bool>)
    requires |slots| == |free| && forall i :: 0 <= i < |free| ==> free[i]
    ensures Stored(slots, free) == multiset{} && Occupied(free) == 0
    decreases |slots|
  {
    if slots != [] {
      NothingStored(slots[..|slots| - 1], free[..|free| - 1]);
    }
  }

  /** The multiset of packets `received` in one tick, stamped with its cycle. */
  ghost function Stamp<T>(packets: seq<T>, cycle: int): multiset<PacketWithCycle<T>> {
    if packets == [] then multiset{}
    else Stamp(packets[..|packets| - 1], cycle) + multiset{PacketWithCycle(cycle, packets[|packets| - 1])}
  }

  lemma StoredOneMore<T>(before: multiset<PacketWithCycle<T>>, packets: seq<T>, n: nat, cycle: int)
    requires n < |packets|
    ensures before + Stamp(packets[..n], cycle) + multiset{PacketWithCycle(cycle, packets[n])}
            == before + Stamp(packets[..n + 1], cycle)
  {
    assert packets[..n + 1][..n] == packets[..n];
  }

  lemma TickGrants(k: Config, s: State, cycle: int, arrivals: nat, arrived: State)
    requires s.length + arrivals <= k.capacity
    requires arrived == s.(length := s.length + arrivals)
    ensures Credits.Tick(k, s, cycle, arrivals) == Grant(k, arrived, cycle)
  {
  }

  /** What PeekPickTo hands out: a packet, and the slot to free when it has been taken. */
  datatype PacketRef<T> = PacketRef(packet: T, slot: int)

  /** `order` lists the slots of `wanted` once each, the oldest packets first. Packets of the
      same cycle come in any order, as sort.Slice leaves them. */
  ghost predicate OldestFirst<T>(slots: seq<PacketWithCycle<T>>, wanted: set<int>, order: seq<int>) {
    && InRange(|slots|, order)
    && (forall x :: x in order ==> x in wanted)
    && (forall x :: x in wanted ==> x in order)
    && Ascending(slots, order)
  }

  predicate InRange(n: nat, order: seq<int>) {
    forall i :: 0 <= i < |order| ==> 0 <= order[i] < n
  }

  predicate Ascending<T>(slots: seq<PacketWithCycle<T>>, order: seq<int>)
    requires InRange(|slots|, order)
  {
    forall i, j :: 0 <= i < j < |order| ==> order[i] != order[j] && slots[order[i]].cycle <= slots[order[j]].cycle
  }

  /** One more slot is put before the first younger packet. */
  function Insert<T>(slots: seq<PacketWithCycle<T>>, order: seq<int>, slot: int): seq<int>
    requires 0 <= slot < |slots| && InRange(|slots|, order)
    decreases |order|
  {
    if order == [] || slots[slot].cycle < slots[order[0]].cycle then [slot] + order
    else [order[0]] + Insert(slots, order[1..], slot)
  }

  lemma {:induction false} InsertedElements<T>(slots: seq<PacketWithCycle<T>>, order: seq<int>, slot: int)
    requires 0 <= slot < |slots| && InRange(|slots|, order)
    ensures forall x :: x in Insert(slots, order, slot) <==> x in order || x == slot
    decreases |order|
  {
    if !(order == [] || slots[slot].cycle < slots[order[0]].cycle) {
      InsertedElements(slots, order[1..], slot);
      assert order == [order[0]] + order[1..];
    }
  }

  lemma {:induction false} InsertedAscending<T>(slots: seq<PacketWithCycle<T>>, order: seq<int>, slot: int)
    requires 0 <= slot < |slots| && slot !in order
    requires InRange(|slots|, order) && Ascending(slots, order)
    ensures InRange(|slots|, Insert(slots, order, slot))
    ensures Ascending(slots, Insert(slots, order, slot))
    decreases |order|
  {
    if order == [] || slots[slot].cycle < slots[order[0]].cycle {
      PutFirst(slots, slot, order);
    } else {
      var rest := Insert(slots, order[1..], slot);
      InsertedAscending(slots, order[1..], slot);
      InsertedElements(slots, order[1..], slot);
      forall j | 0 <= j < |rest|
        ensures rest[j] != order[0] && slots[order[0]].cycle <= slots[rest[j]].cycle
      {
        assert rest[j] in rest;
      }
      PutFirst(slots, order[0], rest);
    }
  }

  lemma PutFirst<T>(slots: seq<PacketWithCycle<T>>, first: int, rest: seq<int>)
    requires 0 <= first < |slots| && InRange(|slots|, rest) && Ascending(slots, rest)
    requires forall j :: 0 <= j < |rest| ==> rest[j] != first && slots[first].cycle <= slots[rest[j]].cycle
    ensures InRange(|slots|, [first] + rest) && Ascending(slots, [first] + rest)
  {
  }

  lemma InsertedInOrder<T>(slots: seq<PacketWithCycle<T>>, order: seq<int>, slot: int, wanted: set<int>)
    requires OldestFirst(slots, wanted, order) && 0 <= slot < |slots| && slot !in wanted
    ensures OldestFirst(slots, wanted + {slot}, Insert(slots, order, slot))
  {
    InsertedElements(slots, order, slot);
    InsertedAscending(slots, order, slot);
    var longer := Insert(slots, order, slot);
    assert forall i :: 0 <= i < |longer| ==> longer[i] in longer;
  }

  /** The slots of a queue, with the marks for free ones and the reasons for blocked ones. */
  datatype Layout<T> = Layout(slots: seq<PacketWithCycle<T>>, free: seq<bool>, reasons: seq<bv64>)

  /** Occupied slots stay as they are, and whatever else is occupied after holds a packet of
      this cycle and is not blocked. */
  ghost predicate OnlyFills<T>(before: Layout<T>, after: Layout<T>, cycle: int) {
    && |before.slots| == |before.free| == |before.reasons| == |after.slots| == |after.free| == |after.reasons|
    && (forall i :: 0 <= i < |before.free| && !before.free[i] ==>
          !after.free[i] && after.slots[i] == before.slots[i] && after.reasons[i] == before.reasons[i])
    && (forall i :: 0 <= i < |before.free| && before.free[i] && !after.free[i] ==>
          after.slots[i].cycle == cycle && after.reasons[i] == 0)
  }

  lemma NothingFilled<T>(layout: Layout<T>, cycle: int)
    requires |layout.slots| == |layout.free| == |layout.reasons|
    ensures OnlyFills(layout, layout, cycle)
  {
  }

  lemma FillsOneMore<T>(before: Layout<T>, mid: Layout<T>, slot: nat, p: PacketWithCycle<T>)
    requires OnlyFills(before, mid, p.cycle) && slot < |mid.free| && mid.free[slot]
    ensures OnlyFills(before, Layout(mid.slots[slot := p], mid.free[slot := false], mid.reasons[slot := 0]), p.cycle)
  {
  }

  class InputQueue<T(0)> {
    const capacity: int
    const inBandwidth: int
    const slots: array<PacketWithCycle<T>>
    const freeBitmap: array<bool>
    const blockReasons: array<bv64>
    var length: int
    var nextUpdateCycle: int
    /** What has been published through the upstream port. */
    var decided: map<int, bool>

    ghost predicate Valid()
      reads `length, slots, freeBitmap, blockReasons
    {
      && capacity > 0 && inBandwidth > 0
      && slots.Length == freeBitmap.Length == blockReasons.Length == capacity
      && slots as object != freeBitmap && slots as object != blockReasons && freeBitmap as object != blockReasons
      && length == Occupied(freeBitmap[..])
    }

    ghost function Contents(): multiset<PacketWithCycle<T>>
      requires slots.Length == freeBitmap.Length
      reads slots, freeBitmap
    {
      Stored(slots[..], freeBitmap[..])
    }

    function Places(): Layout<T>
      reads slots, freeBitmap, blockReasons
    {
      Layout(slots[..], freeBitmap[..], blockReasons[..])
    }

    function Settings(): Config
      requires capacity > 0 && inBandwidth > 0
    {
      Config(capacity, inBandwidth)
    }

    function Account(): State
      reads this
    {
      State(length, nextUpdateCycle, decided)
    }

    /** NewInputQueue followed by SetUpstreamPort. */
    constructor (capacity: int, inBandwidth: int)
      requires capacity > 0 && inBandwidth > 0  // the code panics otherwise
      ensures Valid() && fresh(slots) && fresh(freeBitmap) && fresh(blockReasons)
      ensures this.capacity == capacity && this.inBandwidth == inBandwidth
      ensures Contents() == multiset{} && Account() == CONNECTED
    {
      this.capacity, this.inBandwidth := capacity, inBandwidth;
      slots := new PacketWithCycle<T>[capacity];
      freeBitmap := new bool[capacity](_ => true);
      blockReasons := new bv64[capacity](_ => 0);
      length, nextUpdateCycle := 0, 0;
      decided := map[0 := true, 1 := true];
      new;
      NothingStored(slots[..], freeBitmap[..]);
    }

    /** The first free slot, or -1. */
    method FindFreeSlot() returns (slot: int)
      requires Valid()
      ensures slot == -1 || (0 <= slot < capacity && freeBitmap[slot])
      ensures forall i :: 0 <= i < (if slot == -1 then capacity else slot) ==> !freeBitmap[i]
      ensures slot == -1 <==> length == capacity
    {
      OccupiedBound(freeBitmap[..]);
      for i := 0 to capacity
        invariant forall j :: 0 <= j < i ==> !freeBitmap[j]
      {
        if freeBitmap[i] {
          return i;
        }
      }
      return -1;
    }

    /** Stores the packets one by one, each in the first free slot. */
    method Store(cycle: int, packets: seq<T>) returns (stored: nat)
      requires Valid()
      modifies slots, freeBitmap, blockReasons, `length
      ensures Valid()
      ensures stored == Min(|packets|, capacity - old(length))
      ensures length == old(length) + stored
      ensures Contents() == old(Contents()) + Stamp(packets[..stored], cycle)
      ensures OnlyFills(old(Places()), Places(), cycle)
    {
      hide OnlyFills;
      OccupiedBound(freeBitmap[..]);
      NothingFilled(Places(), cycle);
      stored := 0;
      while stored < |packets|
        invariant Valid()
        invariant 0 <= stored <= |packets|
        invariant length == old(length) + stored <= capacity
        invariant Contents() == old(Contents()) + Stamp(packets[..stored], cycle)
        invariant OnlyFills(old(Places()), Places(), cycle)
      {
        var slot := FindFreeSlot();
        if slot < 0 {
          return;
        }
        var p := PacketWithCycle(cycle, packets[stored]);
        FillsOneMore(old(Places()), Places(), slot, p);
        Occupy(slot, p);
        StoredOneMore(old(Contents()), packets, stored, cycle);
        stored := stored + 1;
      }
    }

    method Occupy(slot: int, p: PacketWithCycle<T>)
      requires Valid() && 0 <= slot < capacity && freeBitmap[slot]
      modifies slots, freeBitmap, blockReasons, `length
      ensures Valid()
      ensures slots[..] == old(slots[..])[slot := p]
      ensures freeBitmap[..] == old(freeBitmap[..])[slot := false]
      ensures blockReasons[..] == old(blockReasons[..])[slot := 0]
      ensures length == old(length) + 1
      ensures Contents() == old(Contents()) + multiset{p}
    {
      StoredAfterUpdate(slots[..], freeBitmap[..], slot, p, false);
      OccupiedAfterUpdate(freeBitmap[..], slot, false);
      slots[slot] := p;
      freeBitmap[slot] := false;
      blockReasons[slot] := 0;
      length := length + 1;
      assert slots[..] == old(slots[..])[slot := p];
      assert freeBitmap[..] == old(freeBitmap[..])[slot := false];
    }

    /** Publishes one declaration through the port; a contradiction panics. */
    method UpdateReady(cycle: int, ready: bool) returns (panicked: bool)
      modifies `decided
      ensures panicked == Contradicted(old(decided), cycle, ready)
      ensures decided == if panicked then old(decided) else old(decided)[cycle := ready]
    {
      if cycle in decided && decided[cycle] != ready {
        return true;
      }
      decided := decided[cycle := ready];
      return false;
    }

    /** The declarations at the end of a tick. */
    method GrantCredits(cycle: int) returns (outcome: Outcome)
      requires Valid() && length <= capacity
      modifies `nextUpdateCycle, `decided
      ensures Valid() && Contents() == old(Contents())
      ensures (Account(), outcome) == Grant(Settings(), old(Account()), cycle)
    {
      var remainReadyCycle := (capacity - length) / inBandwidth;
      var panicked;
      if remainReadyCycle == 0 {
        panicked := UpdateReady(cycle + 1, false);
        if panicked {
          return Panic;
        }
        nextUpdateCycle := cycle + 2;
      } else {
        var i := nextUpdateCycle;
        while i <= cycle + remainReadyCycle
          invariant Declare(Account(), i, cycle + remainReadyCycle) ==
                    Declare(old(Account()), old(nextUpdateCycle), cycle + remainReadyCycle)
          decreases cycle + remainReadyCycle - i
        {
          panicked := UpdateReady(i, true);
          if panicked {
            return Panic;
          }
          nextUpdateCycle := i + 1;
          i := i + 1;
        }
      }
      return Done;
    }

    /** Tick(cycle), given what the port delivers for that cycle. */
    method Tick(cycle: int, packets: seq<T>) returns (outcome: Outcome)
      requires Valid()
      modifies slots, freeBitmap, blockReasons, `length, `nextUpdateCycle, `decided
      ensures Valid() && old(length) <= capacity
      ensures (Account(), outcome) == Credits.Tick(Settings(), old(Account()), cycle, |packets|)
      ensures Contents() == old(Contents()) + Stamp(packets[..Min(|packets|, capacity - old(length))], cycle)
      ensures OnlyFills(old(Places()), Places(), cycle)
    {
      hide OnlyFills, Grant, Stamp, Declare;
      OccupiedBound(freeBitmap[..]);
      ghost var before := Account();
      var stored := Store(cycle, packets);
      assert Account() == before.(length := before.length + stored);
      if stored < |packets| {
        return Overflow;
      }
      ghost var arrived := Account();
      outcome := GrantCredits(cycle);
      TickGrants(Settings(), before, cycle, |packets|, arrived);
    }

    /** The slots that are occupied and not blocked. */
    ghost function Available(): set<int>
      requires Valid()
      reads `length, slots, freeBitmap, blockReasons
    {
      set i | 0 <= i < capacity && !freeBitmap[i] && blockReasons[i] == 0
    }

    /** PeekPickTo: up to `maxOut` available packets, the oldest first; nothing is freed. */
    method PeekPickTo(maxOut: nat) returns (refs: seq<PacketRef<T>>, ghost order: seq<int>)
      requires Valid()
      ensures OldestFirst(slots[..], Available(), order)
      ensures |refs| == Min(maxOut, |order|)
      ensures forall i :: 0 <= i < |refs| ==> refs[i] == PacketRef(slots[order[i]].packet, order[i])
    {
      refs := [];
      OccupiedBound(freeBitmap[..]);
      if length == 0 {
        NothingIsAvailable(freeBitmap[..]);
        order := [];
        return;
      }
      var candidates := Candidates();
      order := candidates;
      while |refs| < |candidates| && |refs| < maxOut
        invariant |refs| <= Min(maxOut, |candidates|)
        invariant forall i :: 0 <= i < |refs| ==> refs[i] == PacketRef(slots[candidates[i]].packet, candidates[i])
      {
        var index := candidates[|refs|];
        refs := refs + [PacketRef(slots[index].packet, index)];
      }
    }

    /** The available slots, collected and sorted by cycle. */
    method Candidates() returns (order: seq<int>)
      requires Valid()
      ensures OldestFirst(slots[..], Available(), order)
    {
      order := [];
      ghost var seen: set<int> := {};
      for i := 0 to capacity
        invariant seen == set j | 0 <= j < i && !freeBitmap[j] && blockReasons[j] == 0
        invariant OldestFirst(slots[..], seen, order)
      {
        if !freeBitmap[i] && blockReasons[i] == 0 {
          InsertedInOrder(slots[..], order, i, seen);
          order := Insert(slots[..], order, i);
          seen := seen + {i};
        }
      }
    }

    /** Free releases an occupied slot; on a free or absent slot it does nothing. */
    method Free(slot: int)
      requires Valid()
      modifies freeBitmap, blockReasons, `length
      ensures Valid()
      ensures var occupied := 0 <= slot < capacity && !old(freeBitmap[slot]);
              length == old(length) - (if occupied then 1 else 0) &&
              Contents() + (if occupied then multiset{slots[slot]} else multiset{}) == old(Contents())
      ensures 0 <= slot < capacity ==> freeBitmap[slot]
      ensures forall i :: 0 <= i < capacity && i != slot ==>
                freeBitmap[i] == old(freeBitmap[i]) && blockReasons[i] == old(blockReasons[i])
      ensures 0 <= slot < capacity ==> blockReasons[slot] == if old(freeBitmap[slot]) then old(blockReasons[slot]) else 0
    {
      if slot >= 0 && slot < capacity {
        if !freeBitmap[slot] {
          StoredAfterUpdate(slots[..], freeBitmap[..], slot, slots[slot], true);
          OccupiedAfterUpdate(freeBitmap[..], slot, true);
          freeBitmap[slot] := true;
          blockReasons[slot] := 0;
          length := length - 1;
          assert freeBitmap[..] == old(freeBitmap[..])[slot := true];
          assert slots[..] == slots[..][slot := slots[slot]];
        }
      }
    }

    /** Block hides a slot from the node; it keeps its packet and its space. */
    method Block(slot: int, reason: bv64)
      requires Valid()
      modifies blockReasons
      ensures Valid() && Contents() == old(Contents())
      ensures 0 <= slot < capacity ==> blockReasons[slot] == old(blockReasons[slot]) | reason
      ensures forall i :: 0 <= i < capacity && i != slot ==> blockReasons[i] == old(blockReasons[i])
    {
      if slot >= 0 && slot < capacity {
        blockReasons[slot] := blockReasons[slot] | reason;
      }
    }
  }
}
