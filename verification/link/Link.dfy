/** Link (internal/core/link/link.go) with the buffered handler: AdvanceTo processes the
    cycles one after the other, receives in each what upstream sent `latency` cycles before,
    and declares and marks on the way. However the run is split into calls, it is the run of
    the FIFO of module BufferedLink. */
module Link {
  import opened Packets
  import opened BufferedLink
  import opened BackPressure

  /** The bursts of cycles 0, ..., n - 1. */
  function Bursts<T>(n: nat, latency: nat, bandwidth: nat, traffic: Traffic<T>): seq<seq<PacketWithCycle<T>>> {
    if n == 0 then []
    else Bursts(n - 1, latency, bandwidth, traffic)
         + [SentIn(n - 1, bandwidth, Arrives(latency, traffic), traffic.ready)]
  }

  /** What has been declared for the cycles 0, 1, ... before cycle n is processed. */
  function Declared<T>(n: nat, latency: nat, bandwidth: nat, traffic: Traffic<T>): seq<bool> {
    seq((if n < latency then latency else n) + 1,
        c requires 0 <= c <= (if n < latency then latency else n) => Permit(c, latency, bandwidth, traffic))
  }

  class Link<T> {
    const handler: BufferedLinkType<T>
    const traffic: Traffic<T>
    var currentCycle: nat
    /** What has gone through the ports: bursts, readiness declarations, done marks. */
    var sent: seq<seq<PacketWithCycle<T>>>
    var declared: seq<bool>
    var done: seq<int>

    ghost predicate Valid()
      reads this, handler, handler.slots
    {
      && handler.Aligned(currentCycle)
      && handler.Contents(currentCycle) == Held(currentCycle, handler.latency, handler.bandwidth, traffic)
      && sent == Bursts(currentCycle, handler.latency, handler.bandwidth, traffic)
      && declared == Declared(currentCycle, handler.latency, handler.bandwidth, traffic)
      && done == seq(currentCycle, c => c)
    }

    /** The constructor and the handler's Init. */
    constructor (latency: int, bandwidth: int, traffic: Traffic<T>)
      requires latency > 0 && bandwidth > 0  // the handler panics otherwise
      ensures Valid() && fresh(handler) && fresh(handler.slots)
      ensures handler.latency == latency && handler.bandwidth == bandwidth && this.traffic == traffic
      ensures currentCycle == 0
    {
      handler := new BufferedLinkType<T>(latency, bandwidth);
      this.traffic := traffic;
      currentCycle, sent, declared, done := 0, [], seq(latency + 1, _ => true), [];
      new;
      assert handler.Aligned(0);
      assert declared == Declared(0, latency, bandwidth, traffic);
    }

    /** AdvanceTo; a target in the past changes nothing. */
    method AdvanceTo(targetCycle: int)
      requires Valid()
      modifies this, handler, handler.slots
      ensures Valid()
      ensures currentCycle == if targetCycle < old(currentCycle) then old(currentCycle) else targetCycle + 1
    {
      if targetCycle < currentCycle {
        return;
      }
      while currentCycle <= targetCycle
        invariant Valid() && old(currentCycle) <= currentCycle <= targetCycle + 1
        decreases targetCycle + 1 - currentCycle
      {
        Tick();
      }
    }

    /** Tick of the current cycle: receive, process, declare, mark done. */
    method Tick()
      requires Valid()
      modifies this, handler, handler.slots
      ensures Valid() && currentCycle == old(currentCycle) + 1
    {
      hide SentIn, Held, Permit, HasSpace;
      var cycle := currentCycle;
      var burst, hasCapacity := ReceiveAndProcess(cycle);
      sent := sent + [burst];
      UpdateUpstreamReady(cycle + 1, hasCapacity);
      done := done + [cycle];
      currentCycle := cycle + 1;
    }

    /** The first two phases of Tick. */
    method ReceiveAndProcess(cycle: nat) returns (burst: seq<PacketWithCycle<T>>, hasCapacity: bool)
      requires handler.Aligned(cycle)
      requires handler.Contents(cycle) == Held(cycle, handler.latency, handler.bandwidth, traffic)
      modifies handler, handler.slots
      ensures handler.Aligned(cycle + 1)
      ensures handler.Contents(cycle + 1) == Held(cycle + 1, handler.latency, handler.bandwidth, traffic)
      ensures burst == SentIn(cycle, handler.bandwidth, Arrives(handler.latency, traffic), traffic.ready)
      ensures hasCapacity == HasSpace(Held(cycle + 1, handler.latency, handler.bandwidth, traffic), handler.bandwidth)
    {
      hide Process, Sends, HasSpace;
      var incoming := [];
      var waitCycle := cycle - handler.latency;
      if waitCycle >= 0 {
        incoming := traffic.sends(waitCycle);
      }
      assert incoming == Arrives(handler.latency, traffic)(cycle);
      burst, hasCapacity := handler.ProcessCycle(cycle, incoming, traffic.ready(cycle));
    }

    /** UpdateReady on the upstream port; it panics if a cycle already declared is declared
        otherwise, and the precondition says that it never has to. */
    method UpdateUpstreamReady(cycle: nat, ready: bool)
      requires handler.latency > 0 && handler.bandwidth > 0 && cycle > 0
      requires declared == Declared(cycle - 1, handler.latency, handler.bandwidth, traffic)
      requires ready == HasSpace(Held(cycle, handler.latency, handler.bandwidth, traffic), handler.bandwidth)
      modifies `declared
      ensures declared == Declared(cycle, handler.latency, handler.bandwidth, traffic)
    {
      if cycle < |declared| {
        assert declared[cycle] == ready by {
          DeclarationsAgree(cycle, handler.latency, handler.bandwidth, traffic);
        }
        return;
      }
      declared := declared + [ready];
    }
  }
}
