/** BufferedLinkType (internal/core/link/handler_buffered.go): a ring of slots indexed by
    the cycle shifted by a back-pressure counter, and a list of packets that found their
    slot full. The class is proved to implement one FIFO; the lemmas follow that FIFO over
    whole runs. */
module BufferedLink {
  import opened Packets

  /** Go's remainder, which takes the sign of the dividend. */
  function GoRem(a: int, b: int): int
    requires b > 0
  {
    if a < 0 then -(-a % b) else a % b
  }

  /** The slot index expression of the code, which is never negative. */
  function SlotIndex(shifted: int, latency: int): (r: int)
    requires latency > 0
    ensures 0 <= r < latency
    ensures r == shifted % latency
  {
    var r := GoRem(GoRem(shifted, latency) + latency, latency);
    GoRemIsEuclidean(shifted, latency);
    r
  }

  lemma GoRemIsEuclidean(a: int, b: int)
    requires b > 0
    ensures GoRem(GoRem(a, b) + b, b) == a % b
  {
    if a < 0 {
      var q, r := -a / b, -a % b;
      if r == 0 {
        assert a == b * (-q);
        ModUnique(a, b, -q, 0);
        ModUnique(b, b, 1, 0);
      } else {
        ModUnique(a, b, -q - 1, b - r);
        ModUnique(b - r, b, 0, b - r);
      }
    } else {
      ModUnique(a % b + b, b, 1, a % b);
    }
  }

  lemma ModUnique(a: int, b: int, q: int, r: int)
    requires b > 0 && 0 <= r < b && a == b * q + r
    ensures a % b == r
  {
    var q', r' := a / b, a % b;
    assert a == b * q' + r';
    if q' != q {
      MulApart(b, q, q');
      assert false;
    }
  }

  lemma MulApart(b: int, q: int, q': int)
    requires b > 0 && q != q'
    ensures b * q - b * q' >= b || b * q' - b * q >= b
  {
    if q > q' {
      MulStep(b, q', q - q');
    } else {
      MulStep(b, q, q' - q);
    }
  }

  lemma {:induction false} MulStep(b: int, q: int, k: int)
    requires b > 0 && k >= 1
    ensures b * (q + k) >= b * q + b
    decreases k
  {
    assert b * (q + k) == b * (q + (k - 1)) + b;
    if k > 1 {
      MulStep(b, q, k - 1);
    }
  }

  lemma NextSlotDiffers(shifted: int, latency: int)
    requires latency > 1
    ensures (shifted + 1) % latency != shifted % latency
  {
    var q, r := shifted / latency, shifted % latency;
    if r + 1 < latency {
      ModUnique(shifted + 1, latency, q, r + 1);
    } else {
      assert shifted + 1 == latency * (q + 1);
      ModUnique(shifted + 1, latency, q + 1, 0);
    }
  }

  // ------------------------------------------------------------------ the FIFO

  /** The contents of a link as one queue: the slot addressed next, then the pending list. */
  datatype Fifo<T> = Fifo(slot: seq<PacketWithCycle<T>>, pending: seq<PacketWithCycle<T>>) {
    function All(): seq<PacketWithCycle<T>> {
      slot + pending
    }
  }

  /** A pending packet whose time has passed is stamped again. */
  function Restamp<T>(p: PacketWithCycle<T>, cycle: int): PacketWithCycle<T> {
    if p.cycle < cycle then p.(cycle := cycle) else p
  }

  function RestampAll<T>(s: seq<PacketWithCycle<T>>, cycle: int): seq<PacketWithCycle<T>> {
    seq(|s|, i requires 0 <= i < |s| => Restamp(s[i], cycle))
  }

  function StampAll<T>(packets: seq<T>, cycle: int): seq<PacketWithCycle<T>> {
    seq(|packets|, i requires 0 <= i < |packets| => PacketWithCycle(cycle, packets[i]))
  }

  function Payloads<T>(s: seq<PacketWithCycle<T>>): seq<T> {
    seq(|s|, i requires 0 <= i < |s| => s[i].packet)
  }

  /** The queue at the moment of sending: what was held, then what has just arrived. */
  function Line<T>(f: Fifo<T>, cycle: int, incoming: seq<T>): seq<PacketWithCycle<T>> {
    f.slot + RestampAll(f.pending, cycle) + StampAll(incoming, cycle)
  }

  function Sends<T>(f: Fifo<T>, bandwidth: nat, cycle: int, incoming: seq<T>, ready: bool): seq<PacketWithCycle<T>> {
    var line := Line(f, cycle, incoming);
    if ready then line[..Min(bandwidth, |line|)] else []
  }

  function Process<T>(f: Fifo<T>, bandwidth: nat, cycle: int, incoming: seq<T>, ready: bool): Fifo<T> {
    var line := Line(f, cycle, incoming);
    var n := Min(bandwidth, |line|);
    Fifo(if ready then [] else line[..n], line[n..])
  }

  function HasSpace<T>(f: Fifo<T>, bandwidth: nat): bool {
    |f.slot| < bandwidth
  }

  /** One packet after the other goes into the slot, or into the pending list once the
      slot is full. */
  function PushAll<T>(f: Fifo<T>, bandwidth: int, s: seq<PacketWithCycle<T>>): Fifo<T> {
    if s == [] then f
    else
      var g := PushAll(f, bandwidth, s[..|s| - 1]);
      var p := s[|s| - 1];
      if |g.slot| < bandwidth then g.(slot := g.slot + [p]) else g.(pending := g.pending + [p])
  }

  lemma {:induction false} PushAllSplits<T>(f: Fifo<T>, bandwidth: int, s: seq<PacketWithCycle<T>>)
    requires |f.slot| <= bandwidth && (f.pending != [] ==> |f.slot| == bandwidth)
    ensures var line := f.All() + s;
            var n := Min(bandwidth, |line|);
            PushAll(f, bandwidth, s) == Fifo(line[..n], line[n..])
  {
    if s == [] {
      assert f.All() + s == f.All();
    } else {
      PushAllSplits(f, bandwidth, s[..|s| - 1]);
      assert f.All() + s == (f.All() + s[..|s| - 1]) + [s[|s| - 1]];
    }
  }

  lemma PushNext<T>(f: Fifo<T>, bandwidth: int, s: seq<PacketWithCycle<T>>, i: nat)
    requires i < |s|
    ensures var g := PushAll(f, bandwidth, s[..i]);
            PushAll(f, bandwidth, s[..i + 1]) ==
            if |g.slot| < bandwidth then g.(slot := g.slot + [s[i]]) else g.(pending := g.pending + [s[i]])
  {
    assert s[..i + 1][..i] == s[..i];
  }

  /** Placing the pending packets and then the new ones, each where there is room, leaves
      the first `bandwidth` packets of the whole line in the slot and the rest pending. */
  lemma PushingFillsTheSlotFirst<T>(f: Fifo<T>, bandwidth: int, cycle: int, incoming: seq<T>)
    requires |f.slot| <= bandwidth
    ensures var line := Line(f, cycle, incoming);
            var n := Min(bandwidth, |line|);
            PushAll(PushAll(Fifo(f.slot, []), bandwidth, RestampAll(f.pending, cycle)),
                    bandwidth, StampAll(incoming, cycle))
            == Fifo(line[..n], line[n..])
  {
    var g := PushAll(Fifo(f.slot, []), bandwidth, RestampAll(f.pending, cycle));
    PushAllSplits(Fifo(f.slot, []), bandwidth, RestampAll(f.pending, cycle));
    assert Fifo(f.slot, []).All() == f.slot;
    assert g.All() == f.slot + RestampAll(f.pending, cycle);
    PushAllSplits(g, bandwidth, StampAll(incoming, cycle));
  }

  // ------------------------------------------------------------------ the code

  class BufferedLinkType<T> {
    const latency: int
    const bandwidth: int
    const slots: array<seq<PacketWithCycle<T>>>
    var totalBackpressure: int
    var pendingPackets: seq<PacketWithCycle<T>>

    function Index(cycle: int): int
      requires latency > 0
      reads `totalBackpressure
    {
      SlotIndex(cycle - totalBackpressure, latency)
    }

    predicate Configured() {
      latency > 0 && bandwidth > 0 && slots.Length == latency
    }

    /** Ready to process `cycle`: no slot but the one this cycle addresses holds a packet,
        and no pending packet waits for a later cycle. */
    ghost predicate Aligned(cycle: int)
      reads this, slots
    {
      && Configured()
      && |slots[Index(cycle)]| <= bandwidth
      && (forall i :: 0 <= i < latency && i != Index(cycle) ==> slots[i] == [])
      && (forall i :: 0 <= i < |pendingPackets| ==> pendingPackets[i].cycle <= cycle)
    }

    function Contents(cycle: int): Fifo<T>
      requires Configured()
      reads this, slots
    {
      Fifo(slots[Index(cycle)], pendingPackets)
    }

    constructor (latency: int, bandwidth: int)
      requires latency > 0 && bandwidth > 0  // the code panics otherwise
      ensures this.latency == latency && this.bandwidth == bandwidth
      ensures fresh(slots)
      ensures forall cycle {:trigger Aligned(cycle)} :: Aligned(cycle) && Contents(cycle) == Fifo([], [])
    {
      this.latency, this.bandwidth := latency, bandwidth;
      slots := new seq<PacketWithCycle<T>>[latency](_ => []);
      totalBackpressure, pendingPackets := 0, [];
    }

    predicate CanAcceptPacket(cycle: int, targetCycle: int)
      requires Configured()
      reads this, slots
    {
      targetCycle - cycle < latency && |slots[Index(targetCycle)]| < bandwidth
    }

    predicate CheckSpace(cycle: int)
      requires Configured()
      reads this, slots
    {
      |slots[Index(cycle)]| < bandwidth
    }

    /** Panics on a full slot, which the precondition excludes at every call. */
    method AddToSlot(p: PacketWithCycle<T>, targetCycle: int)
      requires Configured()
      requires |slots[Index(targetCycle)]| < bandwidth
      modifies slots
      ensures slots[..] == old(slots[..])[Index(targetCycle) := old(slots[Index(targetCycle)]) + [p]]
    {
      slots[Index(targetCycle)] := slots[Index(targetCycle)] + [p];
    }

    /** The pending packets get their slot, or stay pending. */
    method ProcessPending(cycle: int)
      requires Aligned(cycle)
      modifies this`pendingPackets, slots
      ensures Aligned(cycle)
      ensures Contents(cycle) ==
              PushAll(Fifo(old(slots[Index(cycle)]), []), bandwidth, RestampAll(old(pendingPackets), cycle))
    {
      var currentPending := pendingPackets;
      pendingPackets := [];
      ghost var f := Contents(cycle);
      ghost var stamped := RestampAll(currentPending, cycle);
      assert PushAll(f, bandwidth, stamped[..0]) == f;
      hide PushAll;
      for i := 0 to |currentPending|
        invariant Aligned(cycle)
        invariant Contents(cycle) == PushAll(f, bandwidth, stamped[..i])
      {
        var p := currentPending[i];
        var targetCycle := p.cycle;
        if targetCycle < cycle {
          targetCycle := cycle;
          p := p.(cycle := cycle);
        }
        assert p == stamped[i] && targetCycle == cycle;
        PushNext(f, bandwidth, stamped, i);
        if CanAcceptPacket(cycle, targetCycle) {
          AddToSlot(p, targetCycle);
        } else {
          pendingPackets := pendingPackets + [p];
        }
      }
      assert stamped[..|currentPending|] == stamped;
    }

    /** The new packets get their slot, or become pending. */
    method ProcessIncoming(cycle: int, incoming: seq<T>)
      requires Aligned(cycle)
      modifies this`pendingPackets, slots
      ensures Aligned(cycle)
      ensures Contents(cycle) == PushAll(old(Contents(cycle)), bandwidth, StampAll(incoming, cycle))
    {
      ghost var f := Contents(cycle);
      ghost var stamped := StampAll(incoming, cycle);
      assert PushAll(f, bandwidth, stamped[..0]) == f;
      hide PushAll;
      for i := 0 to |incoming|
        invariant Aligned(cycle)
        invariant Contents(cycle) == PushAll(f, bandwidth, stamped[..i])
      {
        var p := PacketWithCycle(cycle, incoming[i]);
        PushNext(f, bandwidth, stamped, i);
        if CanAcceptPacket(cycle, cycle) {
          AddToSlot(p, cycle);
        } else {
          pendingPackets := pendingPackets + [p];
        }
      }
      assert stamped[..|incoming|] == stamped;
    }

    /** Process with a connected downstream whose decision for `cycle` is `ready`. TrySend
        asks the port for the same decision again, so it refuses none of the packets. */
    method ProcessCycle(cycle: int, incoming: seq<T>, ready: bool)
      returns (sent: seq<PacketWithCycle<T>>, hasCapacity: bool)
      requires Aligned(cycle)
      modifies this, slots
      ensures Aligned(cycle + 1)
      ensures sent == Sends(old(Contents(cycle)), bandwidth, cycle, incoming, ready)
      ensures Contents(cycle + 1) == Process(old(Contents(cycle)), bandwidth, cycle, incoming, ready)
      ensures hasCapacity == HasSpace(Contents(cycle + 1), bandwidth)
    {
      ghost var f := Contents(cycle);
      ProcessPending(cycle);
      ProcessIncoming(cycle, incoming);
      PushingFillsTheSlotFirst(f, bandwidth, cycle, incoming);
      sent := [];
      if ready {
        sent := slots[Index(cycle)];
        slots[Index(cycle)] := [];
        if latency > 1 {
          NextSlotDiffers(cycle - totalBackpressure, latency);
        } else {
          assert Index(cycle + 1) == 0;
        }
      } else {
        totalBackpressure := totalBackpressure + 1;
        assert (cycle + 1) - totalBackpressure == cycle - old(totalBackpressure);
      }
      hasCapacity := CheckSpace(cycle + 1);
    }
  }

  // ------------------------------------------------------- one FIFO over whole runs

  /** The link after `n` cycles: `arrives(c)` reaches it in cycle c, `ready(c)` is the
      downstream decision for c. */
  function After<T>(n: nat, bandwidth: nat, arrives: nat -> seq<T>, ready: nat -> bool): Fifo<T> {
    if n == 0 then Fifo([], [])
    else Process(After(n - 1, bandwidth, arrives, ready), bandwidth, n - 1, arrives(n - 1), ready(n - 1))
  }

  function SentIn<T>(c: nat, bandwidth: nat, arrives: nat -> seq<T>, ready: nat -> bool): seq<PacketWithCycle<T>> {
    Sends(After(c, bandwidth, arrives, ready), bandwidth, c, arrives(c), ready(c))
  }

  /** Everything that has arrived in, and left in, the first `n` cycles. */
  function Arrived<T>(n: nat, arrives: nat -> seq<T>): seq<T> {
    if n == 0 then [] else Arrived(n - 1, arrives) + arrives(n - 1)
  }

  function Departed<T>(n: nat, bandwidth: nat, arrives: nat -> seq<T>, ready: nat -> bool): seq<T> {
    if n == 0 then []
    else Departed(n - 1, bandwidth, arrives, ready) + Payloads(SentIn(n - 1, bandwidth, arrives, ready))
  }

  /** The slot is never fuller than the bandwidth. */
  lemma {:induction false} SlotFits<T>(n: nat, bandwidth: nat, arrives: nat -> seq<T>, ready: nat -> bool)
    ensures |After(n, bandwidth, arrives, ready).slot| <= bandwidth
  {
  }

  lemma StepMovesPayloads<T>(f: Fifo<T>, bandwidth: nat, cycle: int, incoming: seq<T>, ready: bool)
    ensures Payloads(f.All()) + incoming ==
            Payloads(Sends(f, bandwidth, cycle, incoming, ready)) +
            Payloads(Process(f, bandwidth, cycle, incoming, ready).All())
  {
    var line := Line(f, cycle, incoming);
    assert Payloads(line) == Payloads(f.All()) + incoming;
    assert Sends(f, bandwidth, cycle, incoming, ready) + Process(f, bandwidth, cycle, incoming, ready).All() == line;
  }

  /** The link is a FIFO: over any number of cycles, whatever arrives and whatever the
      downstream decides, what has left followed by what is held is what has arrived.
      Nothing is lost, duplicated or reordered. */
  lemma {:induction false} LinkIsFifo<T>(n: nat, bandwidth: nat, arrives: nat -> seq<T>, ready: nat -> bool)
    ensures Departed(n, bandwidth, arrives, ready) + Payloads(After(n, bandwidth, arrives, ready).All())
            == Arrived(n, arrives)
  {
    if n == 0 {
      assert Payloads(After(0, bandwidth, arrives, ready).All()) == [];
    } else {
      hide Payloads, Process, Sends, Line, Fifo.All;
      LinkIsFifo(n - 1, bandwidth, arrives, ready);
      StepMovesPayloads(After(n - 1, bandwidth, arrives, ready), bandwidth, n - 1, arrives(n - 1), ready(n - 1));
      Reassociate(Departed(n - 1, bandwidth, arrives, ready),
                  Payloads(After(n - 1, bandwidth, arrives, ready).All()),
                  arrives(n - 1),
                  Payloads(SentIn(n - 1, bandwidth, arrives, ready)),
                  Payloads(After(n, bandwidth, arrives, ready).All()));
    }
  }

  lemma Reassociate<T>(gone: seq<T>, held: seq<T>, coming: seq<T>, sent: seq<T>, kept: seq<T>)
    requires held + coming == sent + kept
    ensures (gone + sent) + kept == (gone + held) + coming
  {
    assert (gone + sent) + kept == gone + (sent + kept);
    assert (gone + held) + coming == gone + (held + coming);
  }

  /** A ready cycle sends the first min(bandwidth, length) packets of the queue; any other
      cycle sends none. */
  lemma ReadyCycleSendsTheFront<T>(c: nat, bandwidth: nat, arrives: nat -> seq<T>, ready: nat -> bool)
    ensures var queue := Payloads(After(c, bandwidth, arrives, ready).All()) + arrives(c);
            Payloads(SentIn(c, bandwidth, arrives, ready)) ==
            if ready(c) then queue[..Min(bandwidth, |queue|)] else []
  {
    var f := After(c, bandwidth, arrives, ready);
    assert Payloads(Line(f, c, arrives(c))) == Payloads(f.All()) + arrives(c);
  }

  predicate StampedBefore<T>(s: seq<PacketWithCycle<T>>, n: int) {
    forall i :: 0 <= i < |s| ==> s[i].cycle < n
  }

  lemma ProcessStamps<T>(f: Fifo<T>, bandwidth: nat, cycle: int, incoming: seq<T>, ready: bool)
    requires StampedBefore(f.slot, cycle) && StampedBefore(f.pending, cycle)
    ensures StampedBefore(Process(f, bandwidth, cycle, incoming, ready).slot, cycle + 1)
    ensures StampedBefore(Process(f, bandwidth, cycle, incoming, ready).pending, cycle + 1)
  {
    assert StampedBefore(Line(f, cycle, incoming), cycle + 1);
  }

  /** Every packet held after `n` cycles was stamped in one of them. */
  lemma {:induction false} HeldStampsAreOld<T>(n: nat, bandwidth: nat, arrives: nat -> seq<T>, ready: nat -> bool)
    ensures StampedBefore(After(n, bandwidth, arrives, ready).slot, n)
    ensures StampedBefore(After(n, bandwidth, arrives, ready).pending, n)
  {
    if n > 0 {
      hide StampedBefore, Process;
      HeldStampsAreOld(n - 1, bandwidth, arrives, ready);
      ProcessStamps(After(n - 1, bandwidth, arrives, ready), bandwidth, n - 1, arrives(n - 1), ready(n - 1));
    } else {
      assert After(n, bandwidth, arrives, ready) == Fifo([], []);
    }
  }

  /** The stamp a packet leaves with is the cycle it leaves in if and only if it was not
      held in the slot; the whole burst is stamped right if and only if the slot was empty
      when the cycle began. Receive, at the other end, sorts packets by this stamp. */
  lemma StampsOfDepartures<T>(c: nat, bandwidth: nat, arrives: nat -> seq<T>, ready: nat -> bool)
    requires ready(c)
    ensures var f, sent := After(c, bandwidth, arrives, ready), SentIn(c, bandwidth, arrives, ready);
            forall i :: 0 <= i < |sent| ==> (sent[i].cycle == c <==> i >= |f.slot|) && sent[i].cycle <= c
    ensures var f, sent := After(c, bandwidth, arrives, ready), SentIn(c, bandwidth, arrives, ready);
            (forall i :: 0 <= i < |sent| ==> sent[i].cycle == c) <==> f.slot == []
  {
    var f, sent := After(c, bandwidth, arrives, ready), SentIn(c, bandwidth, arrives, ready);
    HeldStampsAreOld(c, bandwidth, arrives, ready);
    SlotFits(c, bandwidth, arrives, ready);
    if f.slot != [] {
      assert sent[0] == f.slot[0];
    }
  }
}
