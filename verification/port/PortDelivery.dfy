/** Packet delivery through a Port (internal/core/ahead_port/port.go): a bounded channel,
    the done counter of the upstream component, and the downstream cache of packets keyed
    by their cycle stamp. The class gives Receive's code; the state machine interleaves
    its steps with a sender that stamps packets with the cycle it is in and marks cycles
    done in order, as OutputQueue.Tick does. */
module PortDelivery {
  import opened Packets

  /** Capacity of the channel made by NewPort. */
  const CHANNEL_CAPACITY := 64

  /** The packets stamped `c`, in order. */
  function Stamped<T>(s: seq<PacketWithCycle<T>>, c: int): seq<T> {
    if s == [] then []
    else if s[|s| - 1].cycle == c then Stamped(s[..|s| - 1], c) + [s[|s| - 1].packet]
    else Stamped(s[..|s| - 1], c)
  }

  lemma {:induction false} StampedConcat<T>(a: seq<PacketWithCycle<T>>, b: seq<PacketWithCycle<T>>, c: int)
    ensures Stamped(a + b, c) == Stamped(a, c) + Stamped(b, c)
    decreases |b|
  {
    if b == [] {
      assert a + b == a;
    } else {
      assert (a + b)[..|a + b| - 1] == a + b[..|b| - 1];
      StampedConcat(a, b[..|b| - 1], c);
    }
  }

  lemma {:induction false} NoneStamped<T>(s: seq<PacketWithCycle<T>>, c: int)
    requires forall i :: 0 <= i < |s| ==> s[i].cycle != c
    ensures Stamped(s, c) == []
  {
    if s != [] {
      NoneStamped(s[..|s| - 1], c);
    }
  }

  type Cache<T> = map<int, seq<T>>

  function Cached<T>(cache: Cache<T>, c: int): seq<T> {
    if c in cache then cache[c] else []
  }

  function Stash<T>(cache: Cache<T>, p: PacketWithCycle<T>): (r: Cache<T>)
    ensures forall c :: Cached(r, c) == Cached(cache, c) + Stamped([p], c)
    ensures forall c :: c in r ==> c in cache || c == p.cycle
  {
    assert [p][..0] == [];
    cache[p.cycle := Cached(cache, p.cycle) + [p.packet]]
  }

  /** `after` is `before` with `packets` stashed, in order. */
  ghost predicate Stashed<T>(before: Cache<T>, packets: seq<PacketWithCycle<T>>, after: Cache<T>) {
    forall c :: Cached(after, c) == Cached(before, c) + Stamped(packets, c)
  }

  lemma StashOneMore<T>(before: Cache<T>, packets: seq<PacketWithCycle<T>>, after: Cache<T>, p: PacketWithCycle<T>)
    requires Stashed(before, packets, after)
    ensures Stashed(before, packets + [p], Stash(after, p))
  {
    hide Stash, Stamped, Cached;
    forall c
      ensures Cached(Stash(after, p), c) == Cached(before, c) + Stamped(packets + [p], c)
    {
      StampedConcat(packets, [p], c);
      assert Cached(after, c) == Cached(before, c) + Stamped(packets, c);
      Regroup(Cached(before, c), Stamped(packets, c), Stamped([p], c));
    }
  }

  lemma Regroup<T>(a: seq<T>, b: seq<T>, c: seq<T>)
    ensures (a + b) + c == a + (b + c)
  {
  }

  class Port<T> {
    var channel: seq<PacketWithCycle<T>>
    var pendingPackets: Cache<T>

    constructor ()
      ensures channel == [] && pendingPackets == map[]
    {
      channel, pendingPackets := [], map[];
    }

    /** TrySend, given the downstream decision. The channel send blocks while the channel
        is full, so a caller that gets past it finds room. */
    method TrySend(ready: bool, p: PacketWithCycle<T>) returns (sent: bool)
      requires ready ==> |channel| < CHANNEL_CAPACITY
      modifies this`channel
      ensures sent == ready
      ensures channel == if ready then old(channel) + [p] else old(channel)
    {
      if !ready {
        return false;
      }
      channel := channel + [p];
      return true;
    }

    /** The drain loop: empties the channel into the cache. */
    method Drain()
      modifies this
      ensures channel == []
      ensures Stashed(old(pendingPackets), old(channel), pendingPackets)
    {
      ghost var start, all := pendingPackets, channel;
      ghost var n := 0;
      assert all[..0] == [];
      while channel != []
        invariant 0 <= n <= |all| && channel == all[n..]
        invariant Stashed(start, all[..n], pendingPackets)
        decreases |channel|
      {
        StashOneMore(start, all[..n], pendingPackets, channel[0]);
        assert all[..n] + [channel[0]] == all[..n + 1];
        pendingPackets := Stash(pendingPackets, channel[0]);
        channel := channel[1..];
        n := n + 1;
      }
      assert all[..n] == all;
    }

    /** The last part of Receive, once upstream is done with `cycle`. */
    method Collect(cycle: int) returns (packets: seq<T>)
      modifies this
      ensures packets == Cached(old(pendingPackets), cycle) + Stamped(old(channel), cycle)
      ensures channel == []
      ensures forall c :: Cached(pendingPackets, c) ==
                          if c == cycle then []
                          else Cached(old(pendingPackets), c) + Stamped(old(channel), c)
    {
      Drain();
      packets := Cached(pendingPackets, cycle);
      pendingPackets := pendingPackets - {cycle};
    }
  }

  // ------------------------------------------------------------- every interleaving

  datatype Receiver =
    | Resting     // between two calls of Receive
    | FirstDrain  // drainChannel
    | Waiting     // WaitDone
    | LastDrain   // drain under the lock
    | Taking      // return and delete the cached packets

  /** `sent` and `received` are history: all packets the sender has sent, and what
      Receive(0), Receive(1), ... have returned. */
  datatype State<T> = State(
    channel: seq<PacketWithCycle<T>>, done: int, sending: nat,
    receiver: Receiver, cache: Cache<T>,
    sent: seq<PacketWithCycle<T>>, received: seq<seq<T>>)

  datatype Choice<T> = SendPacket(packet: T) | MarkDone | ReceiverStep

  function Initial<T>(): State<T> {
    State([], -1, 0, Resting, map[], [], [])
  }

  predicate ReceiverEnabled<T>(s: State<T>) {
    s.receiver == Waiting ==> |s.received| <= s.done
  }

  function StepReceiver<T>(s: State<T>): State<T>
    requires ReceiverEnabled(s)
  {
    match s.receiver
    case Resting => s.(receiver := FirstDrain)
    case FirstDrain =>
      if s.channel == [] then s.(receiver := Waiting)
      else s.(channel := s.channel[1..], cache := Stash(s.cache, s.channel[0]))
    case Waiting => s.(receiver := LastDrain)
    case LastDrain =>
      if s.channel == [] then s.(receiver := Taking)
      else s.(channel := s.channel[1..], cache := Stash(s.cache, s.channel[0]))
    case Taking =>
      var c := |s.received|;
      s.(receiver := Resting, cache := s.cache - {c}, received := s.received + [Cached(s.cache, c)])
  }

  function Step<T>(s: State<T>, choice: Choice<T>): State<T> {
    match choice
    case SendPacket(p) =>
      if |s.channel| < CHANNEL_CAPACITY
      then var pwc := PacketWithCycle(s.sending, p); s.(channel := s.channel + [pwc], sent := s.sent + [pwc])
      else s
    case MarkDone => s.(done := s.sending, sending := s.sending + 1)
    case ReceiverStep => if ReceiverEnabled(s) then StepReceiver(s) else s
  }

  function Run<T>(s: State<T>, schedule: seq<Choice<T>>): State<T>
    decreases |schedule|
  {
    if schedule == [] then s else Run(Step(s, schedule[0]), schedule[1..])
  }

  ghost predicate Inv<T>(s: State<T>) {
    && s.done == s.sending - 1
    && (forall i :: 0 <= i < |s.sent| ==> s.sent[i].cycle <= s.sending)
    // everything received, cached or under way is everything sent
    && (forall c :: 0 <= c < |s.received| ==> s.received[c] == Stamped(s.sent, c))
    && (forall c :: |s.received| <= c ==> Cached(s.cache, c) + Stamped(s.channel, c) == Stamped(s.sent, c))
    && (forall i :: 0 <= i < |s.channel| ==> |s.received| <= s.channel[i].cycle)
    && (forall c :: c in s.cache ==> |s.received| <= c)
    && |s.received| <= s.sending
    // once the wait is over the current cycle is complete, and after the last drain cached
    && (s.receiver == LastDrain || s.receiver == Taking ==> |s.received| <= s.done)
    && (s.receiver == Taking ==> Cached(s.cache, |s.received|) == Stamped(s.sent, |s.received|))
    && (s.receiver == Taking ==> forall i :: 0 <= i < |s.channel| ==> |s.received| < s.channel[i].cycle)
  }

  lemma StampedSnoc<T>(s: seq<PacketWithCycle<T>>, p: PacketWithCycle<T>)
    ensures forall c :: Stamped(s + [p], c) == Stamped(s, c) + if c == p.cycle then [p.packet] else []
  {
    assert (s + [p])[..|s|] == s;
  }

  lemma SendKeepsInv<T>(s: State<T>, p: T)
    requires Inv(s) && |s.channel| < CHANNEL_CAPACITY
    ensures Inv(Step(s, SendPacket(p)))
  {
    var pwc := PacketWithCycle(s.sending, p);
    StampedSnoc(s.sent, pwc);
    StampedSnoc(s.channel, pwc);
    var t := Step(s, SendPacket(p));
    forall c | |t.received| <= c
      ensures Cached(t.cache, c) + Stamped(t.channel, c) == Stamped(t.sent, c)
    {
      assert Cached(s.cache, c) + Stamped(s.channel, c) == Stamped(s.sent, c);
    }
  }

  lemma DrainKeepsInv<T>(s: State<T>)
    requires Inv(s) && s.channel != [] && (s.receiver == FirstDrain || s.receiver == LastDrain)
    ensures Inv(s.(channel := s.channel[1..], cache := Stash(s.cache, s.channel[0])))
  {
    assert s.channel == [s.channel[0]] + s.channel[1..];
    forall c | |s.received| <= c
      ensures Cached(Stash(s.cache, s.channel[0]), c) + Stamped(s.channel[1..], c) == Stamped(s.sent, c)
    {
      StampedConcat([s.channel[0]], s.channel[1..], c);
    }
  }

  lemma TakeKeepsInv<T>(s: State<T>)
    requires Inv(s) && s.receiver == Taking
    ensures Inv(StepReceiver(s))
  {
    var t := StepReceiver(s);
    forall c | |t.received| <= c
      ensures Cached(t.cache, c) + Stamped(t.channel, c) == Stamped(t.sent, c)
    {
    }
  }

  lemma StepKeepsInv<T>(s: State<T>, choice: Choice<T>)
    requires Inv(s)
    ensures Inv(Step(s, choice))
    ensures s.sent <= Step(s, choice).sent && s.received <= Step(s, choice).received
  {
    match choice
    case SendPacket(p) => if |s.channel| < CHANNEL_CAPACITY { SendKeepsInv(s, p); }
    case MarkDone =>
    case ReceiverStep =>
      if s.receiver == Taking {
        TakeKeepsInv(s);
      } else if (s.receiver == FirstDrain || s.receiver == LastDrain) && s.channel != [] {
        DrainKeepsInv(s);
      }
  }

  lemma {:induction false} RunKeepsInv<T>(s: State<T>, schedule: seq<Choice<T>>)
    requires Inv(s)
    ensures Inv(Run(s, schedule))
    decreases |schedule|
  {
    if schedule != [] {
      StepKeepsInv(s, schedule[0]);
      RunKeepsInv(Step(s, schedule[0]), schedule[1..]);
    }
  }

  /** Under every interleaving of sends, done marks and drains, Receive(c) has returned
      exactly the packets stamped c, in send order; nothing else has been lost, and only
      later stamps are cached. */
  lemma DeliveryIsExact<T>(schedule: seq<Choice<T>>)
    ensures var s := Run(Initial<T>(), schedule);
            && (forall c :: 0 <= c < |s.received| ==> s.received[c] == Stamped(s.sent, c))
            && (forall c :: |s.received| <= c ==>
                  Cached(s.cache, c) + Stamped(s.channel, c) == Stamped(s.sent, c))
            && (forall c :: c in s.cache ==> |s.received| <= c)
  {
    RunKeepsInv(Initial<T>(), schedule);
  }

  /** So what a receiver sees depends on what was sent and on nothing else. */
  lemma DeliveryIgnoresInterleaving<T>(one: seq<Choice<T>>, other: seq<Choice<T>>)
    requires Run(Initial<T>(), one).sent == Run(Initial<T>(), other).sent
    requires |Run(Initial<T>(), one).received| <= |Run(Initial<T>(), other).received|
    ensures Run(Initial<T>(), one).received <= Run(Initial<T>(), other).received
  {
    DeliveryIsExact(one);
    DeliveryIsExact(other);
  }

  /** The receiver is held up only by an unfinished cycle of the sender, and after that
      cycle is marked done each of its steps gets closer to returning. */
  lemma ReceiveReturns<T>(s: State<T>)
    ensures !ReceiverEnabled(s) ==> s.done < |s.received|
    ensures ReceiverEnabled(s) && s.receiver != Resting ==>
              StepsToReturn(StepReceiver(s)) < StepsToReturn(s)
  {
  }

  function StepsToReturn<T>(s: State<T>): nat {
    match s.receiver
    case Resting => 0
    case Taking => 1
    case LastDrain => 2 + |s.channel|
    case Waiting => 3 + |s.channel|
    case FirstDrain => 4 + |s.channel|
  }
}
