/** One DRAM channel (internal/capabilities/memory/dram: dram_channel.go, operate.go,
    schedule.go) as functions on its state. A packet is known by an id; its record is
    shared by the queue and the bank that hold it. */
module Channel {
  import opened AddressMapping

  datatype Option<T> = None | Some(value: T)

  datatype Timing = Timing(mapping: Mapping, rqSize: nat, wqSize: nat, tRP: nat, tRCD: nat, tCAS: nat, tRAS: nat)

  datatype Packet = Packet(address: nat, isWrite: bool, readyTime: nat, scheduled: bool)

  datatype Bank = Bank(valid: bool, openRow: Option<nat>, readyTime: nat, pkt: Option<nat>)

  const IDLE := Bank(false, None, 0, None)

  /** Cycles a burst holds the data bus. */
  const BURST: nat := 8

  /** `active` is the bank on the data bus. `completed` is history: the packets whose
      callback has been called, and when. */
  datatype State = State(
    rq: seq<nat>, wq: seq<nat>, packets: map<nat, Packet>, banks: seq<Bank>, active: Option<nat>,
    cycle: nat, writeMode: bool, dbusAvailable: nat, completed: seq<(nat, nat)>)

  function Initial(k: Timing): (s: State)
    ensures Shaped(k, s)
  {
    State([], [], map[], seq(k.mapping.TotalBanks(), _ => IDLE), None, 0, false, 0, [])
  }

  /** The shape that keeps every index in range. */
  ghost predicate Shaped(k: Timing, s: State) {
    && |s.banks| == k.mapping.TotalBanks()
    && (s.active.Some? ==> s.active.value < |s.banks| && s.banks[s.active.value].pkt.Some?)
    && (forall id :: id in s.rq ==> id in s.packets)
    && (forall id :: id in s.wq ==> id in s.packets)
    && (forall i :: 0 <= i < |s.banks| && s.banks[i].valid ==> s.banks[i].pkt.Some? && s.banks[i].pkt.value in s.packets)
  }

  // ------------------------------------------------------------------ AddRequest

  function AddRequest(k: Timing, s: State, id: nat, p: Packet): (State, bool) {
    var p' := if p.readyTime == 0 then p.(readyTime := s.cycle) else p;
    if p.isWrite then
      if |s.wq| >= k.wqSize then (s, false)
      else (s.(wq := s.wq + [id], packets := s.packets[id := p']), true)
    else
      if |s.rq| >= k.rqSize then (s, false)
      else (s.(rq := s.rq + [id], packets := s.packets[id := p']), true)
  }

  // ------------------------------------------------------------------ finishDBusRequest

  /** Without the first occurrence of `id`. */
  function Remove(queue: seq<nat>, id: nat): seq<nat>
    decreases |queue|
  {
    if queue == [] then []
    else if queue[0] == id then queue[1..]
    else [queue[0]] + Remove(queue[1..], id)
  }

  predicate CanFinish(s: State)
    requires s.active.Some? ==> s.active.value < |s.banks|
  {
    s.active.Some? && s.banks[s.active.value].readyTime <= s.cycle
  }

  function Finish(k: Timing, s: State): State
    requires Shaped(k, s)
  {
    if !CanFinish(s) then s
    else
      var b := s.active.value;
      var id := s.banks[b].pkt.value;
      s.(rq := Remove(s.rq, id),
         wq := if id in s.rq then s.wq else Remove(s.wq, id),
         banks := s.banks[b := s.banks[b].(valid := false, pkt := None)],
         active := None,
         completed := s.completed + [(id, s.cycle)])
  }

  // ------------------------------------------------------------------ swapWriteMode

  function HighWM(k: Timing): nat { k.wqSize * 7 / 8 }
  function LowWM(k: Timing): nat { k.wqSize * 6 / 8 }

  predicate ShouldSwitch(k: Timing, s: State) {
    if !s.writeMode then |s.wq| >= HighWM(k) || (|s.rq| == 0 && |s.wq| > 0)
    else |s.wq| == 0 || (|s.rq| > 0 && |s.wq| < LowWM(k))
  }

  /** Bank `i` gives its packet back to the queue. */
  predicate Resets(s: State, i: nat)
    requires i < |s.banks|
  {
    s.banks[i].valid && s.active != Some(i)
  }

  function ResetBank(k: Timing, s: State, i: nat): Bank
    requires i < |s.banks|
  {
    var b := s.banks[i];
    if !Resets(s, i) then b
    else Bank(false, if b.readyTime >= s.cycle + k.tCAS then b.openRow else None, b.readyTime, None)
  }

  /** The packets of the first n banks that give theirs back. */
  function GivenBack(s: State, n: nat): set<nat>
    requires n <= |s.banks|
    requires forall i :: 0 <= i < |s.banks| && s.banks[i].valid ==> s.banks[i].pkt.Some?
  {
    set i | 0 <= i < n && Resets(s, i) :: s.banks[i].pkt.value
  }

  function ResetPackets(s: State, ids: set<nat>): map<nat, Packet> {
    map id | id in s.packets ::
      if id in ids then s.packets[id].(scheduled := false, readyTime := s.cycle) else s.packets[id]
  }

  function Swap(k: Timing, s: State): State
    requires Shaped(k, s)
  {
    if !ShouldSwitch(k, s) then s
    else
      s.(writeMode := !s.writeMode,
         banks := seq(|s.banks|, i requires 0 <= i < |s.banks| => ResetBank(k, s, i)),
         packets := ResetPackets(s, GivenBack(s, |s.banks|)),
         dbusAvailable := (if s.active.Some? then s.banks[s.active.value].readyTime else s.cycle) + k.tRAS)
  }

  // ------------------------------------------------------------------ populateDBus

  /** Among the first n banks, the first one whose request is ready, and ready earliest. */
  function NextRequest(banks: seq<Bank>, cycle: nat, n: nat): (r: Option<nat>)
    requires n <= |banks|
    ensures r.Some? ==> r.value < n && banks[r.value].valid && banks[r.value].readyTime <= cycle
  {
    if n == 0 then None
    else
      var best := NextRequest(banks, cycle, n - 1);
      var b := banks[n - 1];
      if b.valid && b.readyTime <= cycle && (best == None || b.readyTime < banks[best.value].readyTime) then Some(n - 1)
      else best
  }

  /** It is the earliest: no ready request has been ready for longer, and none as long comes
      before it. */
  lemma {:induction false} NextRequestIsEarliest(banks: seq<Bank>, cycle: nat, n: nat)
    requires n <= |banks|
    ensures var r := NextRequest(banks, cycle, n);
            && (r == None <==> forall i :: 0 <= i < n && banks[i].valid ==> banks[i].readyTime > cycle)
            && (r.Some? ==> forall i :: 0 <= i < n && banks[i].valid ==> banks[r.value].readyTime <= banks[i].readyTime)
            && (r.Some? ==> forall i :: 0 <= i < r.value && banks[i].valid ==> banks[r.value].readyTime < banks[i].readyTime)
  {
    if n > 0 {
      NextRequestIsEarliest(banks, cycle, n - 1);
    }
  }

  function Populate(k: Timing, s: State): State {
    if s.active.Some? || s.dbusAvailable > s.cycle then s
    else
      match NextRequest(s.banks, s.cycle, |s.banks|)
      case None => s
      case Some(b) =>
        s.(active := Some(b), banks := s.banks[b := s.banks[b].(readyTime := s.cycle + BURST)],
           dbusAvailable := s.cycle + BURST)
  }

  // ------------------------------------------------------------------ schedulePacket

  function BankOf(k: Timing, p: Packet): (i: nat)
    ensures i < k.mapping.TotalBanks()
  {
    BankIndexInRange(k.mapping, p.address);
    k.mapping.GetBankIndex(p.address)
  }

  function RowOf(k: Timing, p: Packet): nat {
    k.mapping.GetRow(p.address)
  }

  predicate Schedulable(k: Timing, s: State, id: nat)
    requires |s.banks| == k.mapping.TotalBanks() && id in s.packets
  {
    !s.packets[id].scheduled && !s.banks[BankOf(k, s.packets[id])].valid
  }

  predicate RowHit(k: Timing, s: State, p: Packet)
    requires |s.banks| == k.mapping.TotalBanks()
  {
    s.banks[BankOf(k, p)].openRow == Some(RowOf(k, p))
  }

  /** The age of a packet that is not ready yet is negative. */
  function Priority(k: Timing, s: State, id: nat): int
    requires |s.banks| == k.mapping.TotalBanks() && id in s.packets
  {
    100 + (if RowHit(k, s, s.packets[id]) then 1000 else 0) + (s.cycle - s.packets[id].readyTime)
  }

  function Queue(s: State): seq<nat> {
    if s.writeMode then s.wq else s.rq
  }

  /** The best of the packets: a running maximum that starts at -1. */
  function Best(k: Timing, s: State, queue: seq<nat>): (r: (Option<nat>, int))
    requires Shaped(k, s) && forall id :: id in queue ==> id in s.packets
    ensures r.0.Some? ==> r.0.value in queue && Schedulable(k, s, r.0.value) && r.1 == Priority(k, s, r.0.value)
    ensures r.0 == None ==> r.1 == -1
    ensures r.1 >= -1
  {
    if queue == [] then (None, -1)
    else
      var n := |queue| - 1;
      var best := Best(k, s, queue[..n]);
      if Schedulable(k, s, queue[n]) && Priority(k, s, queue[n]) > best.1
      then (Some(queue[n]), Priority(k, s, queue[n]))
      else best
  }

  /** The choice beats every packet that can be scheduled; nothing is chosen only if none
      has a priority above -1. */
  lemma {:induction false} BestIsBest(k: Timing, s: State, queue: seq<nat>)
    requires Shaped(k, s) && forall id :: id in queue ==> id in s.packets
    ensures var best := Best(k, s, queue);
            forall i :: 0 <= i < |queue| && Schedulable(k, s, queue[i]) ==> Priority(k, s, queue[i]) <= best.1
  {
    if queue != [] {
      BestIsBest(k, s, queue[..|queue| - 1]);
    }
  }

  /** The choice is the first of the best: earlier packets that can be scheduled have a lower
      priority. Nothing is chosen exactly if no packet that can be scheduled has a priority
      above -1. */
  lemma {:induction false} BestIsFirst(k: Timing, s: State, queue: seq<nat>) returns (i: nat)
    requires Shaped(k, s) && forall id :: id in queue ==> id in s.packets
    ensures var best := Best(k, s, queue);
            if best.0 == None then forall j :: 0 <= j < |queue| && Schedulable(k, s, queue[j]) ==> Priority(k, s, queue[j]) <= -1
            else
              && i < |queue| && best.0 == Some(queue[i])
              && forall j :: 0 <= j < i && Schedulable(k, s, queue[j]) ==> Priority(k, s, queue[j]) < best.1
  {
    hide Schedulable, Priority;
    i := 0;
    if queue != [] {
      var n := |queue| - 1;
      i := BestIsFirst(k, s, queue[..n]);
      BestIsBest(k, s, queue[..n]);
      if Best(k, s, queue) != Best(k, s, queue[..n]) {
        i := n;
      }
    }
  }

  /** The time a packet counts as waiting from: a row hit counts 1000 cycles more. */
  function WaitingFrom(k: Timing, s: State, id: nat): int
    requires |s.banks| == k.mapping.TotalBanks() && id in s.packets
  {
    s.packets[id].readyTime - if RowHit(k, s, s.packets[id]) then 1000 else 0
  }

  /** The packet at position i of the queue can be scheduled, is due within 100 cycles, and no
      other that can be has waited longer, nor as long and further to the front. */
  ghost predicate LongestWaiting(k: Timing, s: State, queue: seq<nat>, i: nat)
    requires Shaped(k, s) && (forall id :: id in queue ==> id in s.packets) && i < |queue|
  {
    && Schedulable(k, s, queue[i]) && WaitingFrom(k, s, queue[i]) <= s.cycle + 100
    && forall j :: 0 <= j < |queue| && Schedulable(k, s, queue[j]) ==>
         WaitingFrom(k, s, queue[i]) < WaitingFrom(k, s, queue[j])
         || (WaitingFrom(k, s, queue[i]) == WaitingFrom(k, s, queue[j]) && i <= j)
  }

  /** First ready, first come, first served, with 1000 cycles in favour of row hits:
      schedulePacket chooses the packet that has waited longest, and nothing only if no packet
      that can be scheduled is due within 100 cycles. */
  lemma ChoiceWaitedLongest(k: Timing, s: State, queue: seq<nat>, id: nat)
    requires Shaped(k, s) && forall x :: x in queue ==> x in s.packets
    ensures Best(k, s, queue).0 == Some(id) <==> exists i :: 0 <= i < |queue| && queue[i] == id && LongestWaiting(k, s, queue, i)
    ensures Best(k, s, queue).0 == None <==>
            forall j :: 0 <= j < |queue| && Schedulable(k, s, queue[j]) ==> WaitingFrom(k, s, queue[j]) > s.cycle + 100
  {
    var best := Best(k, s, queue);
    var at := BestIsFirst(k, s, queue);
    BestIsBest(k, s, queue);
    assert best.0.Some? ==> Schedulable(k, s, best.0.value) && best.1 == Priority(k, s, best.0.value) > -1;
    hide Best, Schedulable, RowHit;
    if best.0.Some? {
      assert LongestWaiting(k, s, queue, at);
    }
  }

  /** A row miss that is worth choosing, and that no row hit is preferred to: every row hit
      that can be scheduled is more than 1000 cycles younger, or exactly 1000 and behind it
      in the queue. */
  ghost predicate OutweighsHits(k: Timing, s: State, queue: seq<nat>, i: nat)
    requires Shaped(k, s) && (forall id :: id in queue ==> id in s.packets) && i < |queue|
  {
    && Schedulable(k, s, queue[i]) && !RowHit(k, s, s.packets[queue[i]]) && s.packets[queue[i]].readyTime <= s.cycle + 100
    && forall j :: 0 <= j < |queue| && Schedulable(k, s, queue[j]) && RowHit(k, s, s.packets[queue[j]]) ==>
         var missTime, hitTime := s.packets[queue[i]].readyTime, s.packets[queue[j]].readyTime;
         missTime + 1000 < hitTime || (missTime + 1000 == hitTime && i < j)
  }

  /** Row hits first, with the limit that age sets: schedulePacket chooses a row miss if and
      only if the queue holds one that outweighs every row hit. */
  lemma RowHitsFirst(k: Timing, s: State, queue: seq<nat>)
    requires Shaped(k, s) && forall id :: id in queue ==> id in s.packets
    ensures var choice := Best(k, s, queue).0;
            choice.Some? && !RowHit(k, s, s.packets[choice.value])
            <==> exists i :: 0 <= i < |queue| && OutweighsHits(k, s, queue, i)
  {
    var best := Best(k, s, queue);
    var at := BestIsFirst(k, s, queue);
    BestIsBest(k, s, queue);
    if best.0.Some? && !RowHit(k, s, s.packets[best.0.value]) {
      assert OutweighsHits(k, s, queue, at);
    } else if i :| 0 <= i < |queue| && OutweighsHits(k, s, queue, i) {
      assert false;
    }
  }

  /** The row of `hit` is open in every bank; a read of it has just come, and the read of
      another row has waited 1000 cycles. */
  function Waited(k: Timing, hit: nat, miss: nat): State {
    State([1, 0], [], map[0 := Packet(hit, false, 1000, false), 1 := Packet(miss, false, 0, false)],
          seq(k.mapping.TotalBanks(), _ => Bank(false, Some(k.mapping.GetRow(hit)), 0, None)), None, 1000, false, 0, [])
  }

  /** Then the row hit is passed over, whatever the mapping and the timing. */
  lemma OldMissIsChosen(k: Timing, hit: nat, miss: nat)
    requires k.mapping.GetRow(hit) != k.mapping.GetRow(miss)
    ensures var s := Waited(k, hit, miss);
            && Shaped(k, s)
            && Schedulable(k, s, 0) && RowHit(k, s, s.packets[0])
            && Best(k, s, Queue(s)).0 == Some(1)
  {
    hide BankOf;
    var s := Waited(k, hit, miss);
    assert RowHit(k, s, s.packets[0]) && !RowHit(k, s, s.packets[1]);
    assert OutweighsHits(k, s, [1, 0], 0);
    hide Best;
    RowHitsFirst(k, s, [1, 0]);
  }

  // ------------------------------------------------------------------ servicePacket

  function Latency(k: Timing, b: Bank, row: nat): nat {
    if b.openRow == Some(row) then k.tCAS
    else if b.openRow.Some? then k.tRP + k.tRCD + k.tCAS
    else k.tRCD + k.tCAS
  }

  function Service(k: Timing, s: State, choice: Option<nat>): State
    requires |s.banks| == k.mapping.TotalBanks() && (choice.Some? ==> choice.value in s.packets)
  {
    if choice == None then s
    else
      var id := choice.value;
      var p := s.packets[id];
      var i := BankOf(k, p);
      if p.readyTime > s.cycle || s.banks[i].valid then s
      else
        s.(banks := s.banks[i := Bank(true, Some(RowOf(k, p)), s.cycle + Latency(k, s.banks[i], RowOf(k, p)), Some(id))],
           packets := s.packets[id := p.(scheduled := true)])
  }

  // ------------------------------------------------------------------ Tick

  lemma FinishIsOk(k: Timing, s: State)
    requires Shaped(k, s)
    ensures Shaped(k, Finish(k, s))
  {
    if CanFinish(s) {
      var id := s.banks[s.active.value].pkt.value;
      RemoveKeepsOthers(s.rq, id);
      RemoveKeepsOthers(s.wq, id);
    }
  }

  lemma {:induction false} RemoveKeepsOthers(queue: seq<nat>, id: nat)
    ensures forall x :: x in Remove(queue, id) ==> x in queue
    ensures forall x :: x in queue && x != id ==> x in Remove(queue, id)
    ensures |Remove(queue, id)| == |queue| - if id in queue then 1 else 0
    decreases |queue|
  {
    if queue != [] && queue[0] != id {
      RemoveKeepsOthers(queue[1..], id);
      assert queue == [queue[0]] + queue[1..];
    }
  }

  lemma SwapIsOk(k: Timing, s: State)
    requires Shaped(k, s)
    ensures Shaped(k, Swap(k, s))
  {
  }

  lemma PopulateIsOk(k: Timing, s: State)
    requires Shaped(k, s)
    ensures Shaped(k, Populate(k, s))
  {
  }

  lemma ServiceIsOk(k: Timing, s: State, choice: Option<nat>)
    requires Shaped(k, s) && (choice.Some? ==> choice.value in s.packets)
    ensures Shaped(k, Service(k, s, choice))
  {
  }

  /** The state in which schedulePacket makes its choice. */
  function BeforeService(k: Timing, s: State): (r: State)
    requires Shaped(k, s)
    ensures Shaped(k, r)
  {
    var now := s.(cycle := s.cycle + 1);
    FinishIsOk(k, now);
    SwapIsOk(k, Finish(k, now));
    PopulateIsOk(k, Swap(k, Finish(k, now)));
    Populate(k, Swap(k, Finish(k, now)))
  }

  function Tick(k: Timing, s: State): (r: State)
    requires Shaped(k, s)
    ensures Shaped(k, r)
  {
    var t := BeforeService(k, s);
    var choice := Best(k, t, Queue(t)).0;
    ServiceIsOk(k, t, choice);
    Service(k, t, choice)
  }
}
