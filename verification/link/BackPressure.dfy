/** How much a buffered link can be made to hold (internal/core/link/handler_buffered.go,
    internal/core/link/link.go). Upstream may send `bandwidth` packets in a cycle the link
    has declared ready and none in any other; they reach the link `latency` cycles later;
    the downstream decision of each cycle is arbitrary. */
module BackPressure {
  import opened Packets
  import opened BufferedLink
  import P = PortDelivery

  /** The environment of one link: what upstream sends and what downstream decides. */
  datatype Traffic<!T> = Traffic(sends: nat -> seq<T>, ready: nat -> bool)

  /** Link.Tick(c) receives what was sent in cycle c - latency, and nothing before that. */
  function Arrives<T>(latency: nat, traffic: Traffic<T>): nat -> seq<T> {
    (c: nat) => if c < latency then [] else traffic.sends(c - latency)
  }

  function Held<T>(n: nat, latency: nat, bandwidth: nat, traffic: Traffic<T>): Fifo<T> {
    After(n, bandwidth, Arrives(latency, traffic), traffic.ready)
  }

  /** What the link declares for cycle c: Init for the first latency + 1 cycles, CheckSpace
      at the end of cycle c - 1 for the others. */
  function Permit<T>(c: nat, latency: nat, bandwidth: nat, traffic: Traffic<T>): bool {
    c <= latency || HasSpace(Held(c, latency, bandwidth, traffic), bandwidth)
  }

  ghost predicate ObeysIn<T>(c: nat, latency: nat, bandwidth: nat, traffic: Traffic<T>) {
    |traffic.sends(c)| <= if Permit(c, latency, bandwidth, traffic) then bandwidth else 0
  }

  /** Upstream obeys the declarations. */
  ghost predicate Obeys<T(!new)>(latency: nat, bandwidth: nat, traffic: Traffic<T>) {
    forall c: nat :: ObeysIn(c, latency, bandwidth, traffic)
  }

  /** How many of the cycles lo, ..., hi - 1 are declared ready. */
  function Permits<T>(lo: nat, hi: nat, latency: nat, bandwidth: nat, traffic: Traffic<T>): (r: nat)
    ensures lo <= hi ==> r <= hi - lo
    decreases hi
  {
    if hi <= lo then 0
    else Permits(lo, hi - 1, latency, bandwidth, traffic) + if Permit(hi - 1, latency, bandwidth, traffic) then 1 else 0
  }

  lemma {:induction false} PermitsFromLow<T>(lo: nat, hi: nat, latency: nat, bandwidth: nat, traffic: Traffic<T>)
    requires lo < hi
    ensures Permits(lo, hi, latency, bandwidth, traffic) ==
            Permits(lo + 1, hi, latency, bandwidth, traffic) + if Permit(lo, latency, bandwidth, traffic) then 1 else 0
    decreases hi
  {
    if lo + 1 < hi {
      PermitsFromLow(lo, hi - 1, latency, bandwidth, traffic);
    }
  }

  function Size<T>(n: nat, latency: nat, bandwidth: nat, traffic: Traffic<T>): nat {
    |Held(n, latency, bandwidth, traffic).All()|
  }

  /** Ready cycles whose packets may still be on their way when cycle n begins. */
  function Outstanding<T>(n: nat, latency: nat, bandwidth: nat, traffic: Traffic<T>): nat {
    Permits(if n < latency then 0 else n - latency, n + 1, latency, bandwidth, traffic)
  }

  lemma SizeStep<T>(n: nat, latency: nat, bandwidth: nat, traffic: Traffic<T>)
    ensures var line := Size(n, latency, bandwidth, traffic) + |Arrives(latency, traffic)(n)|;
            Size(n + 1, latency, bandwidth, traffic) ==
            if traffic.ready(n) then line - Min(bandwidth, line) else line
  {
  }

  /** With an unready downstream the slot keeps the front of the queue. */
  lemma SpaceAfterUnready<T>(n: nat, latency: nat, bandwidth: nat, traffic: Traffic<T>)
    requires !traffic.ready(n)
    ensures HasSpace(Held(n + 1, latency, bandwidth, traffic), bandwidth) <==>
            Size(n + 1, latency, bandwidth, traffic) < bandwidth
  {
  }

  /** What the link declares. The first latency + 1 cycles are declared ready, and a later one if
      and only if the link has sent in the cycle before, or holds less than a full burst;
      packets that are still pending then do not count. */
  lemma DeclaresSpace<T>(c: nat, latency: nat, bandwidth: nat, traffic: Traffic<T>)
    requires bandwidth > 0
    ensures Permit(c, latency, bandwidth, traffic) <==>
            c <= latency || traffic.ready(c - 1) || Size(c, latency, bandwidth, traffic) < bandwidth
  {
    if c > latency && !traffic.ready(c - 1) {
      SpaceAfterUnready(c - 1, latency, bandwidth, traffic);
    }
  }

  lemma {:induction false} NothingYet<T>(n: nat, latency: nat, bandwidth: nat, traffic: Traffic<T>)
    requires n <= latency
    ensures Held(n, latency, bandwidth, traffic) == Fifo([], [])
  {
    if n > 0 {
      NothingYet(n - 1, latency, bandwidth, traffic);
      assert Line(Held(n - 1, latency, bandwidth, traffic), n - 1, Arrives(latency, traffic)(n - 1)) == [];
    }
  }

  /** Init declares the first latency + 1 cycles ready, and Process declares cycles
      1, ..., latency again: it finds the same decision, so UpdateReady does not panic. */
  lemma DeclarationsAgree<T>(c: nat, latency: nat, bandwidth: nat, traffic: Traffic<T>)
    requires bandwidth > 0 && c <= latency
    ensures HasSpace(Held(c, latency, bandwidth, traffic), bandwidth)
  {
    NothingYet(c, latency, bandwidth, traffic);
  }

  /** Packets held plus packets that may still come. */
  function Potential<T>(n: nat, latency: nat, bandwidth: nat, traffic: Traffic<T>): nat {
    Size(n, latency, bandwidth, traffic) + bandwidth * Outstanding(n, latency, bandwidth, traffic)
  }

  lemma PotentialEarly<T>(n: nat, latency: nat, bandwidth: nat, traffic: Traffic<T>)
    requires bandwidth > 0 && n <= latency
    ensures Potential(n, latency, bandwidth, traffic) <= bandwidth * (latency + 1)
  {
    NothingYet(n, latency, bandwidth, traffic);
    MulMono(bandwidth, Outstanding(n, latency, bandwidth, traffic), latency + 1);
  }

  lemma MulMono(b: nat, x: int, y: int)
    requires x <= y
    ensures b * x <= b * y
  {
  }

  /** The arithmetic of one cycle: `used` permissions are consumed by the arrivals,
      `granted` ones are new, and a link that was not drained grants only when it holds
      less than one slot. */
  lemma Accounting(bandwidth: nat, window: nat, size: nat, arriving: nat, size': nat,
                   before: nat, used: nat, granted: nat, ready: bool)
    requires bandwidth > 0 && used <= 1 && granted <= 1 && used <= before
    requires before - used + granted <= window
    requires size + bandwidth * before <= bandwidth * window + bandwidth - 1
    requires arriving <= bandwidth * used
    requires size' == if ready then size + arriving - Min(bandwidth, size + arriving) else size + arriving
    requires !ready && granted == 1 ==> size' < bandwidth
    ensures size' + bandwidth * (before - used + granted) <= bandwidth * window + bandwidth - 1
    ensures size + arriving <= bandwidth * window + bandwidth - 1
  {
    var after := before - used + granted;
    assert bandwidth * after == bandwidth * before - bandwidth * used + bandwidth * granted;
    MulMono(bandwidth, after, window);
    MulMono(bandwidth, used, before);
  }

  /** One cycle: the oldest outstanding permission is used up, a new one may be granted. */
  lemma PotentialStep<T>(n: nat, latency: nat, bandwidth: nat, traffic: Traffic<T>)
    requires latency > 0 && bandwidth > 0 && latency <= n && ObeysIn(n - latency, latency, bandwidth, traffic)
    requires Potential(n, latency, bandwidth, traffic) <= bandwidth * (latency + 1) + bandwidth - 1
    ensures Potential(n + 1, latency, bandwidth, traffic) <= bandwidth * (latency + 1) + bandwidth - 1
    ensures Size(n, latency, bandwidth, traffic) + |Arrives(latency, traffic)(n)|
            <= bandwidth * (latency + 1) + bandwidth - 1
  {
    var used := if Permit(n - latency, latency, bandwidth, traffic) then 1 else 0;
    var granted := if Permit(n + 1, latency, bandwidth, traffic) then 1 else 0;
    PermitsFromLow(n - latency, n + 1, latency, bandwidth, traffic);
    assert Outstanding(n + 1, latency, bandwidth, traffic) ==
           Outstanding(n, latency, bandwidth, traffic) - used + granted;
    SizeStep(n, latency, bandwidth, traffic);
    if !traffic.ready(n) {
      SpaceAfterUnready(n, latency, bandwidth, traffic);
    }
    Accounting(bandwidth, latency + 1, Size(n, latency, bandwidth, traffic), |Arrives(latency, traffic)(n)|,
               Size(n + 1, latency, bandwidth, traffic), Outstanding(n, latency, bandwidth, traffic),
               used, granted, traffic.ready(n));
  }

  lemma {:induction false} PotentialBound<T(!new)>(n: nat, latency: nat, bandwidth: nat, traffic: Traffic<T>)
    requires latency > 0 && bandwidth > 0 && Obeys(latency, bandwidth, traffic)
    ensures Potential(n, latency, bandwidth, traffic) <= bandwidth * (latency + 1) + bandwidth - 1
  {
    if n <= latency {
      PotentialEarly(n, latency, bandwidth, traffic);
    } else {
      PotentialBound(n - 1, latency, bandwidth, traffic);
      PotentialStep(n - 1, latency, bandwidth, traffic);
    }
  }

  /** A buffered link never holds more than (latency + 2) * bandwidth - 1 packets, neither
      between two cycles nor while it processes one, for any downstream decisions. */
  lemma BufferIsBounded<T(!new)>(n: nat, latency: nat, bandwidth: nat, traffic: Traffic<T>)
    requires latency > 0 && bandwidth > 0 && Obeys(latency, bandwidth, traffic)
    ensures Size(n, latency, bandwidth, traffic) + |Arrives(latency, traffic)(n)| <= (latency + 2) * bandwidth - 1
    ensures Size(n, latency, bandwidth, traffic) <= (latency + 2) * bandwidth - 1
  {
    assert (latency + 2) * bandwidth == bandwidth * (latency + 1) + bandwidth;
    if n < latency {
      NothingYet(n, latency, bandwidth, traffic);
      MulMono(bandwidth, 1, latency + 1);
    } else {
      PotentialBound(n, latency, bandwidth, traffic);
      PotentialStep(n, latency, bandwidth, traffic);
    }
  }

  // ------------------------------------------------------------ the bound is reached

  function Burst<T>(c: nat, latency: nat, bandwidth: nat, packet: T): seq<T> {
    if c == 0 && bandwidth > 0 then seq(bandwidth - 1, _ => packet)
    else if c <= latency + 1 then seq(bandwidth, _ => packet)
    else []
  }

  /** A downstream that is never ready, and an upstream that sends one packet less than it
      may in cycle 0 and as many as it may from then on. */
  function Worst<T>(latency: nat, bandwidth: nat, packet: T): Traffic<T> {
    Traffic((c: nat) => Burst(c, latency, bandwidth, packet), (c: nat) => false)
  }

  lemma {:induction false} WorstSize<T>(k: nat, latency: nat, bandwidth: nat, packet: T)
    requires bandwidth > 0 && k <= latency + 1
    ensures Size(latency + 1 + k, latency, bandwidth, Worst(latency, bandwidth, packet)) == bandwidth - 1 + k * bandwidth
  {
    var traffic := Worst(latency, bandwidth, packet);
    if k == 0 {
      NothingYet(latency, latency, bandwidth, traffic);
      SizeStep(latency, latency, bandwidth, traffic);
    } else {
      WorstSize(k - 1, latency, bandwidth, packet);
      SizeStep(latency + k, latency, bandwidth, traffic);
      assert Arrives(latency, traffic)(latency + k) == Burst(k, latency, bandwidth, packet);
      assert k * bandwidth == (k - 1) * bandwidth + bandwidth;
    }
  }

  /** The bound is exact: for every latency and bandwidth there is obedient traffic that
      fills the link up to it. */
  lemma BoundIsReached<T(!new)>(latency: nat, bandwidth: nat, packet: T)
    requires latency > 0 && bandwidth > 0
    ensures Obeys(latency, bandwidth, Worst(latency, bandwidth, packet))
    ensures Size(2 * latency + 2, latency, bandwidth, Worst(latency, bandwidth, packet)) == (latency + 2) * bandwidth - 1
  {
    var traffic := Worst(latency, bandwidth, packet);
    forall c: nat
      ensures ObeysIn(c, latency, bandwidth, traffic)
    {
      if c == latency + 1 {
        WorstSize(0, latency, bandwidth, packet);
        SpaceAfterUnready(latency, latency, bandwidth, traffic);
      }
    }
    WorstSize(latency + 1, latency, bandwidth, packet);
    assert bandwidth - 1 + (latency + 1) * bandwidth == (latency + 2) * bandwidth - 1;
  }

  /** One packet in cycle 0, and a downstream that is ready except when it reaches the link. */
  function OneHeld<T>(latency: nat, packet: T): Traffic<T> {
    Traffic((c: nat) => if c == 0 then [packet] else [], (c: nat) => c != latency)
  }

  /** Upstream obeys every declaration, and yet the packet leaves with the stamp of an earlier
      cycle than the one it leaves in; so it is not among what Receive returns for that
      cycle. See BufferedLink.StampsOfDepartures for exactly which packets this concerns. */
  lemma HeldPacketLeavesWithOldStamp<T(!new)>(latency: nat, bandwidth: nat, packet: T)
    requires latency > 0 && bandwidth > 0
    ensures Obeys(latency, bandwidth, OneHeld(latency, packet))
    ensures var traffic := OneHeld(latency, packet);
            var sent := SentIn(latency + 1, bandwidth, Arrives(latency, traffic), traffic.ready);
            sent == [PacketWithCycle(latency, packet)] && P.Stamped(sent, latency + 1) == []
  {
    var traffic := OneHeld(latency, packet);
    assert forall c: nat :: ObeysIn(c, latency, bandwidth, traffic);
    NothingYet(latency, latency, bandwidth, traffic);
    var stamped := PacketWithCycle(latency, packet);
    assert Line(Held(latency, latency, bandwidth, traffic), latency, Arrives(latency, traffic)(latency)) == [stamped];
    assert Held(latency + 1, latency, bandwidth, traffic) == Fifo([stamped], []);
    assert Line(Fifo([stamped], []), latency + 1, []) == [stamped];
    P.NoneStamped([stamped], latency + 1);
  }
}
