/** Ticking output queues ahead of their node (internal/core/node/node.go,
    tickOutputQueues and AdvanceTo). Inside an AdvanceTo window the node may tick a queue
    for cycles it has not reached yet, as long as the queue holds a full burst. The lemmas
    show that this cannot be seen from outside: the run agrees with a lockstep run that
    ticks every queue exactly in its current cycle. */
module TickAhead {
  import opened Packets
  import opened OutputQueue

  datatype Option<T> = None | Some(value: T)

  /** One output queue under a node: its settings, the downstream decisions, and the packets
      the handler injects in each cycle. */
  datatype Setting<!T> = Setting(capacity: int, outBandwidth: int, ready: int -> bool, inject: nat -> seq<T>)

  /** The inner loop of tickOutputQueues, from cycle `curr`: the current cycle is always
      ticked, a future one only while a full burst waits. Returns the queue and the first
      cycle not ticked. */
  function Ahead<T>(k: Setting<T>, q: Queue<T>, curr: nat, cycle: nat, target: int): (Queue<T>, nat)
    decreases target + 1 - curr
  {
    if curr <= target && (curr <= cycle || |q.waiting| >= k.outBandwidth)
    then Ahead(k, Ticked(q, k.outBandwidth, curr, k.ready(curr)), curr + 1, cycle, target)
    else (q, curr)
  }

  function StartCycle(ahead: nat, cycle: nat): nat {
    if ahead > cycle then ahead else cycle
  }

  /** A queue together with the next cycle it is to be ticked for. */
  datatype Progress<T> = Progress(queue: Queue<T>, ahead: nat)

  /** tickOutputQueues for one queue; the tracker moves only when something is ticked. */
  function TickFrom<T>(k: Setting<T>, p: Progress<T>, cycle: nat, target: int): Progress<T> {
    var start := StartCycle(p.ahead, cycle);
    var (q, curr) := Ahead(k, p.queue, start, cycle, target);
    Progress(q, if curr > start then curr else p.ahead)
  }

  predicate Fits<T>(k: Setting<T>, q: Queue<T>, packets: seq<T>) {
    packets == [] || |q.waiting| + |packets| <= k.capacity
  }

  /** Cycles `cycle`, ..., `target` of AdvanceTo: the handler injects, the queue is ticked.
      An injection that does not fit is an error. */
  function Advance<T>(k: Setting<T>, p: Progress<T>, cycle: nat, target: int): Option<Progress<T>>
    decreases target + 1 - cycle
  {
    if cycle > target then Some(p)
    else if !Fits(k, p.queue, k.inject(cycle)) then None
    else Advance(k, TickFrom(k, p.(queue := Injected(p.queue, cycle, k.inject(cycle))), cycle, target), cycle + 1, target)
  }

  // ------------------------------------------------------------------ the code

  class BaseNode<T(0)> {
    const outputs: seq<OutputQueue<T>>
    var outputQueueAhead: seq<nat>
    var currentCycle: nat
    var advanceTarget: int

    ghost predicate Valid()
      reads `outputQueueAhead, outputs
    {
      && |outputQueueAhead| == |outputs|
      && (forall i :: 0 <= i < |outputs| ==> outputs[i].Valid())
      && (forall i, j :: 0 <= i < j < |outputs| ==>
            outputs[i] != outputs[j] && outputs[i].buffer != outputs[j].buffer)
    }

    function Buffers(): set<array<PacketWithCycle<T>>>
    {
      set i | 0 <= i < |outputs| :: outputs[i].buffer
    }

    function At(i: nat): Progress<T>
      requires i < |outputs| && |outputQueueAhead| == |outputs| && outputs[i].Valid()
      reads `outputQueueAhead, outputs, Buffers()
    {
      Progress(outputs[i].Contents(), outputQueueAhead[i])
    }

    function SettingOf(i: nat, inject: nat -> seq<T>): Setting<T>
      requires i < |outputs|
    {
      Setting(outputs[i].capacity, outputs[i].outBandwidth, outputs[i].ready, inject)
    }

    /** Where queue `i` will be after the cycles `cycle`, ..., `target`. */
    ghost function Outlook(i: nat, inject: nat -> seq<T>, cycle: nat, target: int): Option<Progress<T>>
      requires Valid() && i < |outputs|
      reads `outputQueueAhead, outputs, Buffers()
    {
      Advance(SettingOf(i, inject), At(i), cycle, target)
    }

    constructor (outputs: seq<OutputQueue<T>>)
      requires forall i :: 0 <= i < |outputs| ==> outputs[i].Valid()
      requires forall i, j :: 0 <= i < j < |outputs| ==>
                 outputs[i] != outputs[j] && outputs[i].buffer != outputs[j].buffer
      ensures Valid() && this.outputs == outputs && currentCycle == 0
      ensures forall i :: 0 <= i < |outputs| ==> outputQueueAhead[i] == 0
    {
      this.outputs := outputs;
      outputQueueAhead := seq(|outputs|, _ => 0);
      currentCycle, advanceTarget := 0, 0;
    }

    /** The loop over the queues. */
    method TickOutputQueues(cycle: nat)
      requires Valid()
      modifies `outputQueueAhead, outputs
      ensures Valid()
      ensures forall i :: 0 <= i < |outputs| ==>
                At(i) == TickFrom(SettingOf(i, _ => []), old(At(i)), cycle, advanceTarget)
    {
      for i := 0 to |outputs|
        invariant Valid()
        invariant forall j :: 0 <= j < i ==> At(j) == TickFrom(SettingOf(j, _ => []), old(At(j)), cycle, advanceTarget)
        invariant forall j :: i <= j < |outputs| ==> At(j) == old(At(j))
      {
        TickOneQueue(i, cycle);
      }
    }

    /** The loop over the cycles of one queue. */
    method TickOneQueue(i: nat, cycle: nat)
      requires Valid() && i < |outputs|
      modifies `outputQueueAhead, outputs[i]
      ensures Valid()
      ensures At(i) == TickFrom(SettingOf(i, _ => []), old(At(i)), cycle, advanceTarget)
      ensures forall j :: 0 <= j < |outputs| && j != i ==> At(j) == old(At(j))
    {
      var startCycle := cycle;
      if outputQueueAhead[i] > startCycle {
        startCycle := outputQueueAhead[i];
      }
      ghost var k := SettingOf(i, _ => []);
      var curr := startCycle;
      while curr <= advanceTarget
        invariant Valid()
        invariant startCycle <= curr
        invariant Ahead(k, At(i).queue, curr, cycle, advanceTarget) ==
                  Ahead(k, old(At(i)).queue, startCycle, cycle, advanceTarget)
        invariant At(i).ahead == if curr > startCycle then curr else old(outputQueueAhead[i])
        invariant forall j :: 0 <= j < |outputs| && j != i ==> At(j) == old(At(j))
        decreases advanceTarget + 1 - curr
      {
        var isFuture := curr > cycle;
        if isFuture {
          if outputs[i].count < outputs[i].outBandwidth {
            break;
          }
        }
        TickOnce(i, curr);
        curr := curr + 1;
      }
    }

    /** One tick of one queue, which is then ahead by it. */
    method TickOnce(i: nat, curr: nat)
      requires Valid() && i < |outputs|
      modifies `outputQueueAhead, outputs[i]
      ensures Valid()
      ensures At(i) == Progress(Ticked(old(At(i)).queue, outputs[i].outBandwidth, curr, outputs[i].ready(curr)), curr + 1)
      ensures forall j :: 0 <= j < |outputs| && j != i ==> At(j) == old(At(j))
    {
      outputs[i].Tick(curr);
      outputQueueAhead := outputQueueAhead[i := curr + 1];
    }

    /** The handler's part of a cycle: it injects into the queues one after the other and
        gives up at the first error. */
    method Process(cycle: nat, inject: seq<nat -> seq<T>>) returns (ok: bool)
      requires Valid() && |inject| == |outputs|
      modifies outputs, Buffers()
      ensures Valid()
      ensures ok == forall i :: 0 <= i < |outputs| ==>
                Fits(SettingOf(i, inject[i]), old(outputs[i].Contents()), inject[i](cycle))
      ensures ok ==> forall i :: 0 <= i < |outputs| ==>
                At(i) == old(At(i)).(queue := Injected(old(outputs[i].Contents()), cycle, inject[i](cycle)))
    {
      for i := 0 to |outputs|
        invariant Valid()
        invariant forall j :: 0 <= j < i ==>
                    && Fits(SettingOf(j, inject[j]), old(outputs[j].Contents()), inject[j](cycle))
                    && At(j) == old(At(j)).(queue := Injected(old(outputs[j].Contents()), cycle, inject[j](cycle)))
        invariant forall j :: i <= j < |outputs| ==> At(j) == old(At(j))
      {
        ok := InjectInto(i, cycle, inject[i](cycle));
        if !ok {
          assert !Fits(SettingOf(i, inject[i]), old(outputs[i].Contents()), inject[i](cycle));
          return false;
        }
      }
      return true;
    }

    method InjectInto(i: nat, cycle: nat, packets: seq<T>) returns (ok: bool)
      requires Valid() && i < |outputs|
      modifies outputs[i], outputs[i].buffer
      ensures Valid()
      ensures ok == Fits(SettingOf(i, _ => []), old(At(i)).queue, packets)
      ensures ok ==> At(i) == old(At(i)).(queue := Injected(old(At(i)).queue, cycle, packets))
      ensures !ok ==> At(i) == old(At(i))
      ensures forall j :: 0 <= j < |outputs| && j != i ==> At(j) == old(At(j))
    {
      ok := outputs[i].InjectPackets(cycle, packets);
    }

    /** AdvanceTo; a target in the past changes nothing. */
    method AdvanceTo(targetCycle: int, inject: seq<nat -> seq<T>>) returns (ok: bool)
      requires Valid() && |inject| == |outputs|
      modifies this, outputs, Buffers()
      ensures Valid()
      ensures ok == forall i :: 0 <= i < |outputs| ==>
                old(Outlook(i, inject[i], currentCycle, targetCycle)).Some?
      ensures ok ==> currentCycle == if targetCycle < old(currentCycle) then old(currentCycle) else targetCycle + 1
      ensures ok ==> forall i :: 0 <= i < |outputs| ==>
                old(Outlook(i, inject[i], currentCycle, targetCycle)) == Some(At(i))
    {
      NothingAhead(inject, targetCycle);
      if targetCycle < currentCycle {
        return true;
      }
      hide Outlook, Advance;
      advanceTarget := targetCycle;
      var cycle := currentCycle;
      while cycle <= targetCycle
        invariant Valid() && advanceTarget == targetCycle
        invariant old(currentCycle) <= cycle <= targetCycle + 1 && cycle == currentCycle
        invariant forall i :: 0 <= i < |outputs| ==>
                    Outlook(i, inject[i], cycle, targetCycle) ==
                    old(Outlook(i, inject[i], currentCycle, targetCycle))
      {
        ghost var failed;
        ok, failed := RunCycle(cycle, inject);
        if !ok {
          assert old(Outlook(failed, inject[failed], currentCycle, targetCycle)) == None;
          return false;
        }
        currentCycle := cycle + 1;
        cycle := cycle + 1;
      }
      NothingAhead(inject, targetCycle);
      return true;
    }

    /** With no cycles left a queue stays where it is. */
    lemma NothingAhead(inject: seq<nat -> seq<T>>, target: int)
      requires Valid() && |inject| == |outputs|
      ensures forall i, cycle: nat :: 0 <= i < |outputs| && cycle > target ==>
                Outlook(i, inject[i], cycle, target) == Some(At(i))
    {
    }

    /** Tick(cycle): process, then tick the output queues. */
    method RunCycle(cycle: nat, inject: seq<nat -> seq<T>>) returns (ok: bool, ghost failed: nat)
      requires Valid() && |inject| == |outputs| && cycle <= advanceTarget
      modifies `outputQueueAhead, outputs, Buffers()
      ensures Valid()
      ensures !ok ==> failed < |outputs|
      ensures !ok ==> old(Outlook(failed, inject[failed], cycle, advanceTarget)) == None
      ensures ok ==> forall i :: 0 <= i < |outputs| ==>
                Outlook(i, inject[i], cycle + 1, advanceTarget) == old(Outlook(i, inject[i], cycle, advanceTarget))
    {
      ok := Process(cycle, inject);
      failed := 0;
      if !ok {
        failed :| failed < |outputs| &&
                  !Fits(SettingOf(failed, inject[failed]), old(outputs[failed].Contents()), inject[failed](cycle));
      } else {
        ghost var mid := seq(|outputs|, i requires 0 <= i < |outputs| reads this, outputs, Buffers() requires Valid() => At(i));
        TickOutputQueues(cycle);
        forall i | 0 <= i < |outputs|
          ensures Outlook(i, inject[i], cycle + 1, advanceTarget) == old(Outlook(i, inject[i], cycle, advanceTarget))
        {
          TickIgnoresInjections(SettingOf(i, _ => []), SettingOf(i, inject[i]), mid[i], cycle, advanceTarget);
        }
      }
    }
  }

  /** The schedule of injections plays no part in a tick. */
  lemma TickIgnoresInjections<T>(k: Setting<T>, k': Setting<T>, p: Progress<T>, cycle: nat, target: int)
    requires k' == k.(inject := k'.inject)
    ensures TickFrom(k, p, cycle, target) == TickFrom(k', p, cycle, target)
  {
    AheadIgnoresInjections(k, k', p.queue, StartCycle(p.ahead, cycle), cycle, target);
  }

  lemma {:induction false} AheadIgnoresInjections<T>(k: Setting<T>, k': Setting<T>, q: Queue<T>, curr: nat, cycle: nat, target: int)
    requires k' == k.(inject := k'.inject)
    ensures Ahead(k, q, curr, cycle, target) == Ahead(k', q, curr, cycle, target)
    decreases target + 1 - curr
  {
    if curr <= target && (curr <= cycle || |q.waiting| >= k.outBandwidth) {
      AheadIgnoresInjections(k, k', Ticked(q, k.outBandwidth, curr, k.ready(curr)), curr + 1, cycle, target);
    }
  }

  // ------------------------------------------------------- the lockstep reference

  /** The queue before cycle `n` when every cycle injects and is then ticked, once. */
  function Lockstep<T>(k: Setting<T>, n: nat): Queue<T> {
    if n == 0 then Queue([], [], [])
    else Ticked(Injected(Lockstep(k, n - 1), n - 1, k.inject(n - 1)), k.outBandwidth, n - 1, k.ready(n - 1))
  }

  predicate RoomIn<T>(k: Setting<T>, c: nat) {
    Fits(k, Lockstep(k, c), k.inject(c))
  }

  /** No injection overflows the lockstep queue before cycle `n`. */
  ghost predicate NeverFull<T>(k: Setting<T>, n: nat) {
    forall c: nat :: c < n ==> RoomIn(k, c)
  }

  /** What is injected in cycle `c`, with its stamp. */
  function Burst<T>(k: Setting<T>, c: nat): (r: seq<PacketWithCycle<T>>)
    ensures |r| == |k.inject(c)|
  {
    seq(|k.inject(c)|, i requires 0 <= i < |k.inject(c)| => PacketWithCycle(c, k.inject(c)[i]))
  }

  lemma BurstIsInjected<T>(k: Setting<T>, q: Queue<T>, c: nat)
    ensures Injected(q, c, k.inject(c)) == q.(waiting := q.waiting + Burst(k, c))
  {
  }

  /** What is injected in cycles c, ..., n - 1. */
  function InjectedBetween<T>(k: Setting<T>, c: nat, n: nat): seq<PacketWithCycle<T>>
    decreases n
  {
    if n <= c then []
    else InjectedBetween(k, c, n - 1) + Burst(k, n - 1)
  }

  /** The lockstep queue before cycle `n` is `q` with what is injected in c, ..., n - 1
      behind it. */
  ghost predicate Matches<T>(k: Setting<T>, q: Queue<T>, c: nat, n: nat) {
    && Lockstep(k, n).waiting == q.waiting + InjectedBetween(k, c, n)
    && Lockstep(k, n).sent == q.sent
    && Lockstep(k, n).done == q.done
  }

  /** Before the node's cycle `c`, with the queue ticked up to `p.ahead`: it agrees with the
      lockstep queue of cycle `p.ahead`, which has received the later injections besides. */
  ghost predicate Simulates<T>(k: Setting<T>, p: Progress<T>, c: nat) {
    Matches(k, p.queue, c, StartCycle(p.ahead, c))
  }

  lemma {:induction false} InjectedFromEarlier<T>(k: Setting<T>, c: nat, n: nat)
    requires c < n
    ensures InjectedBetween(k, c, n) == Burst(k, c) + InjectedBetween(k, c + 1, n)
    decreases n
  {
    hide Burst;
    if n == c + 1 {
      assert InjectedBetween(k, c, c) == [];
    } else {
      InjectedFromEarlier(k, c, n - 1);
      var middle := InjectedBetween(k, c + 1, n - 1);
      assert (Burst(k, c) + middle) + Burst(k, n - 1) == Burst(k, c) + (middle + Burst(k, n - 1));
    }
  }

  /** A future tick of a queue that holds a full burst sends what the lockstep tick sends. */
  lemma FutureTickAgrees<T>(k: Setting<T>, q: Queue<T>, c: nat, n: nat)
    requires k.outBandwidth > 0 && c < n && |q.waiting| >= k.outBandwidth && Matches(k, q, c + 1, n)
    ensures Matches(k, Ticked(q, k.outBandwidth, n, k.ready(n)), c + 1, n + 1)
  {
    var late := InjectedBetween(k, c + 1, n);
    var now := Burst(k, n);
    BurstIsInjected(k, Lockstep(k, n), n);
    hide Burst;
    var m := Leaving(|q.waiting|, k.outBandwidth, k.ready(n));
    var full := Injected(Lockstep(k, n), n, k.inject(n)).waiting;
    assert full == q.waiting + (late + now);
    assert full[..m] == q.waiting[..m];
    assert full[m..] == q.waiting[m..] + (late + now);
    assert InjectedBetween(k, c + 1, n + 1) == late + now;
  }

  lemma {:induction false} AheadAgrees<T>(k: Setting<T>, q: Queue<T>, c: nat, n: nat, target: int)
    requires k.outBandwidth > 0 && c < n && Matches(k, q, c + 1, n)
    ensures var (t, m) := Ahead(k, q, n, c, target);
            n <= m && (n <= target + 1 ==> m <= target + 1) && Matches(k, t, c + 1, m)
    decreases target + 1 - n
  {
    hide Matches, Ticked;
    if n <= target && |q.waiting| >= k.outBandwidth {
      FutureTickAgrees(k, q, c, n);
      AheadAgrees(k, Ticked(q, k.outBandwidth, n, k.ready(n)), c, n + 1, target);
    }
  }

  lemma CycleWhenAhead<T>(k: Setting<T>, q: Queue<T>, c: nat, n: nat)
    requires c < n && Matches(k, q, c, n)
    ensures Matches(k, Injected(q, c, k.inject(c)), c + 1, n)
  {
    InjectedFromEarlier(k, c, n);
    BurstIsInjected(k, q, c);
    hide Lockstep, InjectedBetween, Burst;
    var now := Burst(k, c);
    assert q.waiting + (now + InjectedBetween(k, c + 1, n)) == (q.waiting + now) + InjectedBetween(k, c + 1, n);
  }

  /** A queue that is level with its node ticks exactly like the lockstep queue. */
  lemma CycleWhenLevel<T>(k: Setting<T>, q: Queue<T>, c: nat, target: int)
    requires k.outBandwidth > 0 && c <= target && q == Injected(Lockstep(k, c), c, k.inject(c))
    ensures var (t, m) := Ahead(k, q, c, c, target);
            c + 1 <= m <= target + 1 && Matches(k, t, c + 1, m)
  {
    var t := Ticked(q, k.outBandwidth, c, k.ready(c));
    LockstepMatches(k, c + 1);
    assert Lockstep(k, c + 1) == t;
    hide Matches, Ticked, Lockstep, Injected;
    AheadAgrees(k, t, c, c + 1, target);
    assert Ahead(k, q, c, c, target) == Ahead(k, t, c + 1, c, target);
  }

  lemma LockstepMatches<T>(k: Setting<T>, n: nat)
    ensures Matches(k, Lockstep(k, n), n, n)
  {
    assert InjectedBetween(k, n, n) == [];
  }

  /** One cycle of the node keeps the simulation. */
  lemma CycleSimulates<T>(k: Setting<T>, p: Progress<T>, c: nat, target: int)
    requires k.outBandwidth > 0 && c <= target && p.ahead <= target + 1 && Simulates(k, p, c)
    ensures var p' := TickFrom(k, p.(queue := Injected(p.queue, c, k.inject(c))), c, target);
            Simulates(k, p', c + 1) && c + 1 <= p'.ahead <= target + 1
  {
    var q := Injected(p.queue, c, k.inject(c));
    if c < p.ahead {
      CycleWhenAhead(k, p.queue, c, p.ahead);
      AheadAgrees(k, q, c, p.ahead, target);
      var (t, m) := Ahead(k, q, p.ahead, c, target);
      assert TickFrom(k, p.(queue := q), c, target) == Progress(t, m);
    } else {
      LevelMeansEqual(k, p, c);
      CycleWhenLevel(k, q, c, target);
      var (t, m) := Ahead(k, q, c, c, target);
      assert TickFrom(k, p.(queue := q), c, target) == Progress(t, m);
    }
  }

  lemma LevelMeansEqual<T>(k: Setting<T>, p: Progress<T>, c: nat)
    requires p.ahead <= c
    ensures Simulates(k, p, c) <==> p.queue == Lockstep(k, c)
  {
    assert InjectedBetween(k, c, c) == [];
    assert p.queue.waiting + [] == p.queue.waiting;
  }

  /** What waits and what has been sent is what has been injected. */
  lemma {:induction false} LockstepConserves<T>(k: Setting<T>, n: nat)
    ensures |Lockstep(k, n).waiting| + |Lockstep(k, n).sent| == |InjectedBetween(k, 0, n)|
  {
    if n > 0 {
      LockstepConserves(k, n - 1);
    }
  }

  lemma {:induction false} SentGrows<T>(k: Setting<T>, c: nat, n: nat)
    requires c <= n
    ensures |Lockstep(k, c).sent| <= |Lockstep(k, n).sent|
    decreases n
  {
    if c < n {
      SentGrows(k, c, n - 1);
    }
  }

  lemma {:induction false} InjectedAddsUp<T>(k: Setting<T>, c: nat, n: nat)
    requires c <= n
    ensures |InjectedBetween(k, 0, n)| == |InjectedBetween(k, 0, c)| + |InjectedBetween(k, c, n)|
    decreases n
  {
    if c < n {
      InjectedAddsUp(k, c, n - 1);
    }
  }

  /** A queue that is ahead holds no more than the lockstep queue, so it has room whenever
      the lockstep queue has. */
  lemma AheadIsShorter<T>(k: Setting<T>, p: Progress<T>, c: nat)
    requires Simulates(k, p, c)
    ensures |p.queue.waiting| <= |Lockstep(k, c).waiting|
  {
    var n := StartCycle(p.ahead, c);
    LockstepConserves(k, n);
    LockstepConserves(k, c);
    SentGrows(k, c, n);
    InjectedAddsUp(k, c, n);
  }

  lemma RoomWhenAhead<T>(k: Setting<T>, p: Progress<T>, c: nat)
    requires Simulates(k, p, c)
    ensures forall n :: n > c && NeverFull(k, n) ==> Fits(k, p.queue, k.inject(c))
  {
    AheadIsShorter(k, p, c);
    assert forall n :: n > c && NeverFull(k, n) ==> RoomIn(k, c);
  }

  lemma {:induction false} AdvanceSimulates<T>(k: Setting<T>, p: Progress<T>, c: nat, target: int)
    requires k.outBandwidth > 0 && c <= target + 1 && p.ahead <= target + 1 && Simulates(k, p, c)
    ensures NeverFull(k, target + 1) ==> Advance(k, p, c, target).Some?
    ensures Advance(k, p, c, target).Some? ==>
              var end := Advance(k, p, c, target).value;
              Simulates(k, end, target + 1) && end.ahead <= target + 1
    decreases target + 1 - c
  {
    if c <= target {
      RoomWhenAhead(k, p, c);
      hide Simulates, NeverFull, TickFrom, Fits, Lockstep;
      if Fits(k, p.queue, k.inject(c)) {
        CycleSimulates(k, p, c, target);
        AdvanceSimulates(k, TickFrom(k, p.(queue := Injected(p.queue, c, k.inject(c))), c, target), c + 1, target);
      }
    }
  }

  /** At the end of an AdvanceTo window that does not fail the queue is the lockstep queue. */
  lemma AdvanceEndsInLockstep<T>(k: Setting<T>, p: Progress<T>, c: nat, target: int)
    requires k.outBandwidth > 0 && c <= target && p.ahead <= c && p.queue == Lockstep(k, c)
    ensures NeverFull(k, target + 1) ==> Advance(k, p, c, target).Some?
    ensures Advance(k, p, c, target).Some? ==>
              var end := Advance(k, p, c, target).value;
              end.queue == Lockstep(k, target + 1) && end.ahead <= target + 1
  {
    LevelMeansEqual(k, p, c);
    AdvanceSimulates(k, p, c, target);
    if Advance(k, p, c, target).Some? {
      LevelMeansEqual(k, Advance(k, p, c, target).value, target + 1);
    }
  }

  /** A whole run: AdvanceTo(targets[0]), AdvanceTo(targets[1]), ... from `cycle` on. */
  function Calls<T>(k: Setting<T>, p: Progress<T>, cycle: nat, targets: seq<int>): Option<Progress<T>>
    decreases |targets|
  {
    if targets == [] then Some(p)
    else if targets[0] < cycle then Calls(k, p, cycle, targets[1..])
    else
      match Advance(k, p, cycle, targets[0])
      case None => None
      case Some(p') => Calls(k, p', targets[0] + 1, targets[1..])
  }

  function Reached(cycle: nat, targets: seq<int>): nat
    decreases |targets|
  {
    if targets == [] then cycle
    else Reached(if targets[0] < cycle then cycle else targets[0] + 1, targets[1..])
  }

  lemma {:induction false} ReachedGrows(cycle: nat, targets: seq<int>)
    ensures cycle <= Reached(cycle, targets)
    decreases |targets|
  {
    if targets != [] {
      ReachedGrows(if targets[0] < cycle then cycle else targets[0] + 1, targets[1..]);
    }
  }

  lemma NeverFullBefore<T>(k: Setting<T>, m: nat, n: nat)
    requires m <= n
    ensures NeverFull(k, n) ==> NeverFull(k, m)
  {
  }

  lemma {:induction false} CallsFollowLockstep<T>(k: Setting<T>, p: Progress<T>, cycle: nat, targets: seq<int>)
    requires k.outBandwidth > 0 && p.ahead <= cycle && p.queue == Lockstep(k, cycle)
    ensures NeverFull(k, Reached(cycle, targets)) ==> Calls(k, p, cycle, targets).Some?
    ensures Calls(k, p, cycle, targets).Some? ==>
              Calls(k, p, cycle, targets).value.queue == Lockstep(k, Reached(cycle, targets))
    decreases |targets|
  {
    hide Advance, Lockstep, NeverFull;
    if targets != [] {
      var target := targets[0];
      if target < cycle {
        CallsFollowLockstep(k, p, cycle, targets[1..]);
      } else {
        ReachedGrows(target + 1, targets[1..]);
        NeverFullBefore(k, target + 1, Reached(cycle, targets));
        AdvanceEndsInLockstep(k, p, cycle, target);
        if Advance(k, p, cycle, target).Some? {
          CallsFollowLockstep(k, Advance(k, p, cycle, target).value, target + 1, targets[1..]);
        }
      }
    }
  }

  /** Tick-ahead is invisible. For every ready function, every schedule of injections and
      every split of the run into AdvanceTo calls: if no call fails, the queue has sent the
      same packets with the same stamps, marked the same cycles done and kept the same
      packets as if it had been ticked in lockstep; and no call fails if the schedule does
      not overflow a lockstep queue. */
  lemma TickAheadIsInvisible<T>(k: Setting<T>, targets: seq<int>)
    requires k.outBandwidth > 0
    ensures Calls(k, Progress(Queue([], [], []), 0), 0, targets).Some? ==>
              Calls(k, Progress(Queue([], [], []), 0), 0, targets).value.queue == Lockstep(k, Reached(0, targets))
    ensures NeverFull(k, Reached(0, targets)) ==> Calls(k, Progress(Queue([], [], []), 0), 0, targets).Some?
  {
    CallsFollowLockstep(k, Progress(Queue([], [], []), 0), 0, targets);
  }

  /** In lockstep, and so in every run, each cycle is marked done once, in order. */
  lemma {:induction false} DoneInOrder<T>(k: Setting<T>, n: nat)
    ensures Lockstep(k, n).done == seq(n, i => i)
  {
    if n > 0 {
      DoneInOrder(k, n - 1);
      assert seq(n, i => i) == seq(n - 1, i => i) + [n - 1];
    }
  }

  /** The packets sent for cycle c are sent once, and all of them carry the stamp c. */
  lemma {:induction false} StampsInOrder<T>(k: Setting<T>, n: nat)
    ensures forall i, j :: 0 <= i < j < |Lockstep(k, n).sent| ==>
              Lockstep(k, n).sent[i].cycle <= Lockstep(k, n).sent[j].cycle
    ensures forall i :: 0 <= i < |Lockstep(k, n).sent| ==>
              0 <= Lockstep(k, n).sent[i].cycle < n && k.ready(Lockstep(k, n).sent[i].cycle)
  {
    if n > 0 {
      StampsInOrder(k, n - 1);
    }
  }

  function Payloads<T>(s: seq<PacketWithCycle<T>>): seq<T> {
    seq(|s|, i requires 0 <= i < |s| => s[i].packet)
  }

  /** Everything the handler has injected before cycle `n`, in order. */
  function AllInjected<T>(k: Setting<T>, n: nat): seq<T> {
    if n == 0 then [] else AllInjected(k, n - 1) + k.inject(n - 1)
  }

  lemma PayloadsAppend<T>(s: seq<PacketWithCycle<T>>, t: seq<PacketWithCycle<T>>)
    ensures Payloads(s + t) == Payloads(s) + Payloads(t)
  {
  }

  lemma StampsKeepPayloads<T>(s: seq<PacketWithCycle<T>>, cycle: int)
    ensures Payloads(Stamped(s, cycle)) == Payloads(s)
  {
  }

  lemma TickMovesPayloads<T>(q: Queue<T>, outBandwidth: int, cycle: int, ready: bool)
    ensures var t := Ticked(q, outBandwidth, cycle, ready);
            Payloads(t.sent) + Payloads(t.waiting) == Payloads(q.sent) + Payloads(q.waiting)
  {
    var n := Leaving(|q.waiting|, outBandwidth, ready);
    var (front, back) := (q.waiting[..n], q.waiting[n..]);
    assert q.waiting == front + back;
    PayloadsAppend(front, back);
    PayloadsAppend(q.sent, Stamped(front, cycle));
    StampsKeepPayloads(front, cycle);
    hide Payloads, Stamped;
  }

  lemma InjectionAddsPayloads<T>(q: Queue<T>, cycle: int, packets: seq<T>)
    ensures var filled := Injected(q, cycle, packets);
            filled.sent == q.sent && Payloads(filled.waiting) == Payloads(q.waiting) + packets
  {
  }

  lemma Regroup<T>(a: seq<T>, b: seq<T>, c: seq<T>)
    ensures a + (b + c) == (a + b) + c
  {
  }

  /** The queue is a FIFO. Whatever downstream decides, what has been sent followed by what
      waits is what has been injected: nothing is lost, duplicated or reordered. */
  lemma {:induction false} SentIsInjected<T>(k: Setting<T>, n: nat)
    ensures Payloads(Lockstep(k, n).sent) + Payloads(Lockstep(k, n).waiting) == AllInjected(k, n)
  {
    hide *;
    if n == 0 {
      NothingIsSent(k);
    } else {
      SentIsInjected(k, n - 1);
      OneCycleMore(k, n);
      CycleMovesPayloads(Lockstep(k, n - 1), k.outBandwidth, n - 1, k.inject(n - 1), k.ready(n - 1));
      Regroup(Payloads(Lockstep(k, n - 1).sent), Payloads(Lockstep(k, n - 1).waiting), k.inject(n - 1));
    }
  }

  lemma NothingIsSent<T>(k: Setting<T>)
    ensures Payloads(Lockstep(k, 0).sent) + Payloads(Lockstep(k, 0).waiting) == AllInjected(k, 0)
  {
  }

  lemma OneCycleMore<T>(k: Setting<T>, n: nat)
    requires n > 0
    ensures Lockstep(k, n) == Ticked(Injected(Lockstep(k, n - 1), n - 1, k.inject(n - 1)), k.outBandwidth, n - 1, k.ready(n - 1))
    ensures AllInjected(k, n) == AllInjected(k, n - 1) + k.inject(n - 1)
  {
  }

  lemma CycleMovesPayloads<T>(q: Queue<T>, outBandwidth: int, cycle: int, packets: seq<T>, ready: bool)
    ensures var t := Ticked(Injected(q, cycle, packets), outBandwidth, cycle, ready);
            Payloads(t.sent) + Payloads(t.waiting) == Payloads(q.sent) + (Payloads(q.waiting) + packets)
  {
    hide *;
    TickMovesPayloads(Injected(q, cycle, packets), outBandwidth, cycle, ready);
    InjectionAddsPayloads(q, cycle, packets);
  }

  /** And so is the queue of a node that ticks ahead, in every run that does not fail. */
  lemma RunIsFifo<T>(k: Setting<T>, targets: seq<int>)
    requires k.outBandwidth > 0
    ensures var end := Calls(k, Progress(Queue([], [], []), 0), 0, targets);
            end.Some? ==>
              Payloads(end.value.queue.sent) + Payloads(end.value.queue.waiting) == AllInjected(k, Reached(0, targets))
  {
    TickAheadIsInvisible(k, targets);
    SentIsInjected(k, Reached(0, targets));
  }

  /** In a ready cycle as many packets leave as the bandwidth allows and the queue holds, and
      in any other none; they leave with the stamp of the cycle, behind those sent before. */
  lemma BurstsAreFull<T>(k: Setting<T>, n: nat)
    requires k.outBandwidth > 0
    ensures var before, after := Lockstep(k, n), Lockstep(k, n + 1);
            var leaving := if k.ready(n) then Min(k.outBandwidth, |before.waiting| + |k.inject(n)|) else 0;
            && before.sent <= after.sent && |after.sent| == |before.sent| + leaving
            && (forall i :: |before.sent| <= i < |after.sent| ==> after.sent[i].cycle == n)
            && |after.waiting| == |before.waiting| + |k.inject(n)| - leaving
  {
  }

  /** The node ticks as far ahead as it may: after every cycle of an AdvanceTo window the queue
      is level with the end of the window, or holds less than a full burst. It never goes past
      the end, and never falls behind the node. */
  lemma TicksAsFarAsItMay<T>(k: Setting<T>, p: Progress<T>, c: nat, target: int)
    requires c <= target && p.ahead <= target + 1
    ensures var p' := TickFrom(k, p, c, target);
            && c + 1 <= p'.ahead <= target + 1
            && (p'.ahead == target + 1 || |p'.queue.waiting| < k.outBandwidth)
  {
    AheadGoesOn(k, p.queue, StartCycle(p.ahead, c), c, target);
  }

  lemma {:induction false} AheadGoesOn<T>(k: Setting<T>, q: Queue<T>, n: nat, c: nat, target: int)
    requires c <= n <= target + 1
    ensures var (t, m) := Ahead(k, q, n, c, target);
            && n <= m <= target + 1 && (n == c <= target ==> m > n)
            && (m == target + 1 || |t.waiting| < k.outBandwidth)
    decreases target + 1 - n
  {
    hide Ticked;
    if n <= target && (n <= c || |q.waiting| >= k.outBandwidth) {
      AheadGoesOn(k, Ticked(q, k.outBandwidth, n, k.ready(n)), n + 1, c, target);
    }
  }

  /** Three packets at once, then one more, for a queue of capacity 3 that sends two per
      cycle to a downstream that is not ready in cycle 0. */
  function TightInjection(c: nat): seq<int> {
    if c == 0 then [1, 2, 3] else if c == 1 then [4] else []
  }

  /** That condition on injections is not necessary: a queue that has been ticked ahead
      accepts a packet for which a lockstep queue has no room. */
  lemma AheadMayAcceptMore()
    ensures var k := Setting(3, 2, (c: int) => c != 0, TightInjection);
            && !NeverFull(k, 2)
            && Calls(k, Progress(Queue([], [], []), 0), 0, [1]).Some?
  {
    var k := Setting(3, 2, (c: int) => c != 0, TightInjection);
    var q0 := Injected(Queue([], [], []), 0, k.inject(0));
    assert |q0.waiting| == 3;
    assert |Lockstep(k, 1).waiting| == 3;
    assert !RoomIn(k, 1);
    var q1 := Ticked(q0, 2, 0, false);
    var q2 := Ticked(q1, 2, 1, true);
    assert |q1.waiting| == 3 && |q2.waiting| == 1;
    assert Ahead(k, q0, 0, 0, 1) == (q2, 2) by {
      assert Ahead(k, q1, 1, 0, 1) == Ahead(k, q2, 2, 0, 1);
    }
    var p1 := TickFrom(k, Progress(q0, 0), 0, 1);
    assert p1 == Progress(q2, 2);
    var p2 := TickFrom(k, p1.(queue := Injected(q2, 1, k.inject(1))), 1, 1);
    assert Advance(k, p1, 1, 1) == Advance(k, p2, 2, 1) == Some(p2);
    assert Advance(k, Progress(Queue([], [], []), 0), 0, 1) == Advance(k, p1, 1, 1);
    assert Calls(k, Progress(Queue([], [], []), 0), 0, [1]) == Calls(k, p2, 2, []);
  }
}
