/** OutputQueue (internal/core/queue/output_queue.go): a ring buffer that the node fills
    and that sends up to `outBandwidth` packets a cycle, in order, while downstream is
    ready. */
module OutputQueue {
  import opened Packets
  import opened Rings

  /** A queue as its users see it: what waits, what has been sent with which stamp, and the
      cycles marked done. */
  datatype Queue<T> = Queue(waiting: seq<PacketWithCycle<T>>, sent: seq<PacketWithCycle<T>>, done: seq<int>)

  function Stamped<T>(s: seq<PacketWithCycle<T>>, cycle: int): seq<PacketWithCycle<T>> {
    seq(|s|, i requires 0 <= i < |s| => s[i].(cycle := cycle))
  }

  /** How many packets leave in one cycle. */
  function Leaving(waiting: nat, outBandwidth: int, ready: bool): int {
    if ready && outBandwidth > 0 then Min(outBandwidth, waiting) else 0
  }

  function Ticked<T>(q: Queue<T>, outBandwidth: int, cycle: int, ready: bool): Queue<T> {
    var n := Leaving(|q.waiting|, outBandwidth, ready);
    Queue(q.waiting[n..], q.sent + Stamped(q.waiting[..n], cycle), q.done + [cycle])
  }

  function Injected<T>(q: Queue<T>, cycle: int, packets: seq<T>): Queue<T> {
    q.(waiting := q.waiting + seq(|packets|, i requires 0 <= i < |packets| => PacketWithCycle(cycle, packets[i])))
  }

  class OutputQueue<T(0)> {
    const buffer: array<PacketWithCycle<T>>
    const capacity: int
    const outBandwidth: int
    /** What downstream has decided, or will decide, for each cycle. */
    const ready: int -> bool
    var head: int
    var tail: int
    var count: int
    /** What has gone through the port: packets sent, and cycles marked done. */
    var sent: seq<PacketWithCycle<T>>
    var done: seq<int>

    predicate Valid()
      reads this
    {
      && capacity > 0 && outBandwidth > 0 && buffer.Length == capacity
      && 0 <= head < capacity && 0 <= count <= capacity
      && tail == Index(head, count, capacity)
    }

    function Contents(): Queue<T>
      requires Valid()
      reads this, buffer
    {
      Queue(View(buffer[..], head, count), sent, done)
    }

    /** A capacity that is not positive becomes 8. */
    constructor (capacity: int, outBandwidth: int, ready: int -> bool)
      requires outBandwidth > 0  // the code panics otherwise
      ensures Valid() && fresh(buffer)
      ensures this.capacity == (if capacity <= 0 then 8 else capacity)
      ensures this.outBandwidth == outBandwidth && this.ready == ready
      ensures Contents() == Queue([], [], [])
    {
      var n := if capacity <= 0 then 8 else capacity;
      this.capacity, this.outBandwidth, this.ready := n, outBandwidth, ready;
      buffer := new PacketWithCycle<T>[n];
      head, tail, count, sent, done := 0, 0, 0, [], [];
    }

    /** Sends while there is bandwidth, a packet and a ready downstream, then marks the
        cycle done. */
    method Tick(cycle: int)
      requires Valid()
      modifies `head, `count, `sent, `done
      ensures Valid()
      ensures Contents() == Ticked(old(Contents()), outBandwidth, cycle, ready(cycle))
    {
      ghost var q := Contents();
      var n := 0;
      while n < outBandwidth && count > 0
        invariant Valid()
        invariant 0 <= n <= Leaving(|q.waiting|, outBandwidth, ready(cycle))
        invariant Contents() == Queue(q.waiting[n..], q.sent + Stamped(q.waiting[..n], cycle), q.done)
      {
        if !ready(cycle) {
          break;
        }
        SendFront(cycle);
        assert Stamped(q.waiting[..n + 1], cycle) == Stamped(q.waiting[..n], cycle) + [q.waiting[n].(cycle := cycle)];
        n := n + 1;
      }
      assert n == Leaving(|q.waiting|, outBandwidth, ready(cycle));
      done := done + [cycle];
    }

    /** The front packet leaves, stamped with the cycle. */
    method SendFront(cycle: int)
      requires Valid() && count > 0
      modifies `head, `count, `sent
      ensures Valid()
      ensures var q := old(Contents());
              Contents() == q.(waiting := q.waiting[1..], sent := q.sent + [q.waiting[0].(cycle := cycle)])
    {
      DropFront(buffer[..], head, count);
      var p := buffer[head].(cycle := cycle);
      sent := sent + [p];
      head := (head + 1) % capacity;
      count := count - 1;
    }

    /** All packets are injected, or none and an error is returned. */
    method InjectPackets(cycle: int, packets: seq<T>) returns (ok: bool)
      requires Valid()
      modifies `tail, `count, buffer
      ensures Valid()
      ensures ok == (packets == [] || old(count) + |packets| <= capacity)
      ensures Contents() == if ok then Injected(old(Contents()), cycle, packets) else old(Contents())
    {
      if |packets| == 0 {
        assert Injected(Contents(), cycle, packets) == Contents();
        return true;
      }
      if count + |packets| > capacity {
        return false;
      }
      ghost var q := Contents();
      for i := 0 to |packets|
        invariant Valid()
        invariant count == |q.waiting| + i
        invariant Contents() == Injected(q, cycle, packets[..i])
      {
        Put(PacketWithCycle(cycle, packets[i]));
        InjectOneMore(q, cycle, packets, i);
      }
      assert packets[..|packets|] == packets;
      return true;
    }

    /** The body of the injection loop. */
    method Put(p: PacketWithCycle<T>)
      requires Valid() && count < capacity
      modifies `tail, `count, buffer
      ensures Valid()
      ensures count == old(count) + 1
      ensures Contents() == old(Contents()).(waiting := old(Contents()).waiting + [p])
    {
      AddBack(buffer[..], head, count, p);
      buffer[tail] := p;
      assert buffer[..] == old(buffer[..])[tail := p];
      tail := (tail + 1) % capacity;
      count := count + 1;
      NextIndex(head, old(count), capacity);
    }
  }

  lemma InjectOneMore<T>(q: Queue<T>, cycle: int, packets: seq<T>, i: nat)
    requires i < |packets|
    ensures Injected(q, cycle, packets[..i + 1]).waiting ==
            Injected(q, cycle, packets[..i]).waiting + [PacketWithCycle(cycle, packets[i])]
  {
  }
}
