/** A DRAM channel without further requests empties its queues. The measure is
    lexicographic: packets queued, mode switches due, how far the next packet is from the
    data bus, and the time until it gets there. */
module Drains {
  import opened AddressMapping
  import opened Channel
  import opened Consistency

  function Load(s: State): nat {
    |s.rq| + |s.wq|
  }

  function SwitchesDue(k: Timing, s: State): nat {
    if ShouldSwitch(k, s) then 1 else 0
  }

  /** When the first of the busy banks is ready. */
  function FirstReady(banks: seq<Bank>): (r: Option<nat>)
    ensures r == None <==> forall i :: 0 <= i < |banks| ==> !banks[i].valid
    ensures r.Some? ==> forall i :: 0 <= i < |banks| && banks[i].valid ==> r.value <= banks[i].readyTime
    ensures r.Some? ==> exists i :: 0 <= i < |banks| && banks[i].valid && r.value == banks[i].readyTime
  {
    if banks == [] then None
    else
      var n := |banks| - 1;
      var first := FirstReady(banks[..n]);
      if banks[n].valid && (first == None || banks[n].readyTime < first.value) then Some(banks[n].readyTime) else first
  }

  /** When the last packet of the queue is ready. */
  function LastReady(packets: map<nat, Packet>, queue: seq<nat>): (r: nat)
    requires forall id :: id in queue ==> id in packets
    ensures forall id :: id in queue ==> packets[id].readyTime <= r
  {
    if queue == [] then 0
    else
      var n := |queue| - 1;
      var last := LastReady(packets, queue[..n]);
      if packets[queue[n]].readyTime > last then packets[queue[n]].readyTime else last
  }

  function Max(a: nat, b: nat): nat {
    if a < b then b else a
  }

  /** 1: a packet is on the data bus; 2: a bank is busy; 3: nothing is under way. */
  function Distance(s: State): nat {
    if s.active.Some? then 1 else if FirstReady(s.banks).Some? then 2 else 3
  }

  function Target(s: State): nat
    requires s.active.Some? ==> s.active.value < |s.banks|
    requires forall id :: id in Queue(s) ==> id in s.packets
  {
    if s.active.Some? then s.banks[s.active.value].readyTime
    else if FirstReady(s.banks).Some? then Max(s.dbusAvailable, FirstReady(s.banks).value)
    else LastReady(s.packets, Queue(s))
  }

  function TimeLeft(k: Timing, s: State): nat
    requires Shaped(k, s)
  {
    if Target(s) > s.cycle then Target(s) - s.cycle else 0
  }

  /** The first tick of the measure's order. */
  predicate Less(k: Timing, t: State, s: State)
    requires Shaped(k, s) && Shaped(k, t)
  {
    || Load(t) < Load(s)
    || (Load(t) == Load(s) &&
        (|| SwitchesDue(k, t) < SwitchesDue(k, s)
         || (SwitchesDue(k, t) == SwitchesDue(k, s) &&
             (|| Distance(t) < Distance(s)
              || (Distance(t) == Distance(s) && TimeLeft(k, t) < TimeLeft(k, s))))))
  }

  /** The write queue is large enough for its marks, or there are no reads to compete. */
  predicate Healthy(k: Timing, s: State) {
    k.wqSize >= 2 || s.rq == []
  }

  /** After a switch, with the queues as they were, no other switch is due. */
  lemma NoSecondSwitch(k: Timing, s: State, t: State)
    requires Healthy(k, s) && Load(s) > 0 && ShouldSwitch(k, s)
    requires t.rq == s.rq && t.wq == s.wq && t.writeMode == !s.writeMode
    ensures !ShouldSwitch(k, t)
  {
  }

  /** With no switch due the current mode has work. */
  lemma CurrentQueueHasWork(k: Timing, s: State)
    requires Healthy(k, s) && Load(s) > 0 && !ShouldSwitch(k, s)
    ensures Queue(s) != []
  {
  }

  lemma QueuesStay(k: Timing, s: State)
    requires Shaped(k, s)
    ensures var now := s.(cycle := s.cycle + 1);
            Tick(k, s).rq == Finish(k, now).rq && Tick(k, s).wq == Finish(k, now).wq
  {
  }

  /** A tick in which nothing finishes and no mode switches only populates and serves. */
  function Quiet(k: Timing, s: State): State
    requires Shaped(k, s)
  {
    PopulateIsOk(k, s);
    Service(k, Populate(k, s), Best(k, Populate(k, s), Queue(Populate(k, s))).0)
  }

  lemma QuietTick(k: Timing, s: State)
    requires Shaped(k, s)
    requires var now := s.(cycle := s.cycle + 1); !CanFinish(now) && !ShouldSwitch(k, now)
    ensures Tick(k, s) == Quiet(k, s.(cycle := s.cycle + 1))
  {
  }

  /** Service touches no busy bank. */
  lemma ServiceSparesBusyBanks(k: Timing, s: State, choice: Option<nat>)
    requires Shaped(k, s) && (choice.Some? ==> choice.value in s.packets)
    ensures var t := Service(k, s, choice);
            && |t.banks| == |s.banks| && t.active == s.active && t.cycle == s.cycle
            && t.dbusAvailable == s.dbusAvailable && t.writeMode == s.writeMode && t.rq == s.rq && t.wq == s.wq
            && forall i :: 0 <= i < |s.banks| && s.banks[i].valid ==> t.banks[i] == s.banks[i]
  {
  }

  lemma OnTheBus(k: Timing, s: State)
    requires Inv(k, s) && s.active.Some? && s.banks[s.active.value].readyTime > s.cycle
    ensures Quiet(k, s).active == s.active && Quiet(k, s).cycle == s.cycle
    ensures Shaped(k, Quiet(k, s)) && Target(Quiet(k, s)) == Target(s)
  {
    ServiceSparesBusyBanks(k, s, Best(k, s, Queue(s)).0);
    ServiceIsOk(k, s, Best(k, s, Queue(s)).0);
  }

  lemma PopulateTakesTheBus(k: Timing, s: State)
    requires Shaped(k, s) && s.active == None && FirstReady(s.banks).Some?
    ensures Populate(k, s).active.Some? <==> Target(s) <= s.cycle
    ensures Populate(k, s).active == None ==> Populate(k, s) == s
  {
    NextRequestIsEarliest(s.banks, s.cycle, |s.banks|);
    var i :| 0 <= i < |s.banks| && s.banks[i].valid && s.banks[i].readyTime == FirstReady(s.banks).value;
  }

  /** Busy banks stay, so the first of them is ready no later. */
  lemma FirstReadyGrowsEarlier(banks: seq<Bank>, banks': seq<Bank>)
    requires |banks'| == |banks| && forall i :: 0 <= i < |banks| && banks[i].valid ==> banks'[i] == banks[i]
    ensures FirstReady(banks).Some? ==> FirstReady(banks').Some? && FirstReady(banks').value <= FirstReady(banks).value
  {
    if FirstReady(banks).Some? {
      var i :| 0 <= i < |banks| && banks[i].valid && banks[i].readyTime == FirstReady(banks).value;
      assert banks'[i].valid;
    }
  }

  /** A busy bank gets the data bus as soon as both are ready. */
  lemma TowardsTheBus(k: Timing, s: State)
    requires Shaped(k, s) && s.active == None && FirstReady(s.banks).Some?
    ensures Shaped(k, Quiet(k, s)) && Quiet(k, s).cycle == s.cycle
    ensures Target(s) <= s.cycle ==> Quiet(k, s).active.Some?
    ensures Target(s) > s.cycle ==> Quiet(k, s).active == None && Distance(Quiet(k, s)) == 2 && Target(Quiet(k, s)) <= Target(s)
  {
    hide Best, Service;
    PopulateIsOk(k, s);
    PopulateTakesTheBus(k, s);
    var p := Populate(k, s);
    var choice := Best(k, p, Queue(p)).0;
    ServiceSparesBusyBanks(k, p, choice);
    ServiceIsOk(k, p, choice);
    if Target(s) > s.cycle {
      FirstReadyGrowsEarlier(s.banks, Quiet(k, s).banks);
    }
  }

  /** With all banks idle, a ready queue gets one of them to work. */
  lemma TowardsABank(k: Timing, s: State)
    requires Inv(k, s) && s.active == None && FirstReady(s.banks) == None && Queue(s) != []
    ensures Shaped(k, Quiet(k, s)) && Quiet(k, s).cycle == s.cycle && Quiet(k, s).active == None
    ensures FirstReady(Quiet(k, s).banks).Some? || (Quiet(k, s) == s && Target(s) > s.cycle)
  {
    var queue := Queue(s);
    NextRequestIsEarliest(s.banks, s.cycle, |s.banks|);
    assert Populate(k, s) == s;
    var best := Best(k, s, queue);
    var t := Service(k, s, best.0);
    ServiceIsOk(k, s, best.0);
    BestIsBest(k, s, queue);
    if Target(s) <= s.cycle {
      var id := queue[0];
      assert Queued(s, id);
      assert s.packets[id].scheduled ==> HeldBy(k, s, id, BankOf(k, s.packets[id]));
      assert Schedulable(k, s, id);
      assert Priority(k, s, id) >= 100;
    }
    if best.0.Some? && s.packets[best.0.value].readyTime <= s.cycle {
      assert t.banks[BankOf(k, s.packets[best.0.value])].valid;
    }
  }

  /** What a quiet tick leaves as it was. */
  lemma QuietKeeps(k: Timing, s: State)
    requires Shaped(k, s)
    ensures var t := Quiet(k, s);
            Shaped(k, t) && t.rq == s.rq && t.wq == s.wq && t.writeMode == s.writeMode && t.cycle == s.cycle
  {
    hide Best, Service;
    PopulateIsOk(k, s);
    var p := Populate(k, s);
    var choice := Best(k, p, Queue(p)).0;
    ServiceSparesBusyBanks(k, p, choice);
    ServiceIsOk(k, p, choice);
  }

  lemma QuietGetsCloser(k: Timing, s: State)
    requires Inv(k, s) && Inv(k, s.(cycle := s.cycle + 1)) && Healthy(k, s) && Load(s) > 0
    requires !CanFinish(s.(cycle := s.cycle + 1)) && !ShouldSwitch(k, s)
    ensures Shaped(k, Quiet(k, s.(cycle := s.cycle + 1)))
    ensures var t := Quiet(k, s.(cycle := s.cycle + 1));
            Distance(t) < Distance(s) || (Distance(t) == Distance(s) && TimeLeft(k, t) < TimeLeft(k, s))
  {
    hide Quiet, Conserved, BanksAgree, ModeAgrees;
    var now := s.(cycle := s.cycle + 1);
    QuietKeeps(k, now);
    assert Target(now) == Target(s) && Distance(now) == Distance(s);
    if s.active.Some? {
      OnTheBus(k, now);
    } else if FirstReady(s.banks).Some? {
      TowardsTheBus(k, now);
    } else {
      CurrentQueueHasWork(k, s);
      TowardsABank(k, now);
    }
  }

  lemma SwitchingTick(k: Timing, s: State)
    requires Shaped(k, s)
    requires var now := s.(cycle := s.cycle + 1); !CanFinish(now) && ShouldSwitch(k, now)
    ensures Tick(k, s).writeMode == !s.writeMode
  {
  }

  lemma TickKeepsQueues(k: Timing, s: State)
    requires Inv(k, s)
    ensures var now := s.(cycle := s.cycle + 1);
            if CanFinish(now) then Load(Tick(k, s)) < Load(s) else Tick(k, s).rq == s.rq && Tick(k, s).wq == s.wq
    ensures s.rq == [] ==> Tick(k, s).rq == []
  {
    hide Tick, Conserved, BanksAgree, ModeAgrees;
    var now := s.(cycle := s.cycle + 1);
    QueuesStay(k, s);
    CycleKeepsInv(k, s);
    FinishKeepsInv(k, now);
  }

  /** Every tick with work to do gets closer. */
  lemma TickGetsCloser(k: Timing, s: State)
    requires Inv(k, s) && Healthy(k, s) && Load(s) > 0
    ensures Inv(k, Tick(k, s)) && Healthy(k, Tick(k, s)) && Less(k, Tick(k, s), s)
  {
    hide Tick, Conserved, BanksAgree, ModeAgrees;
    var now := s.(cycle := s.cycle + 1);
    TickKeepsInv(k, s);
    CycleKeepsInv(k, s);
    TickKeepsQueues(k, s);
    if CanFinish(now) {
    } else if ShouldSwitch(k, now) {
      SwitchingTick(k, s);
      NoSecondSwitch(k, s, Tick(k, s));
    } else {
      QuietTick(k, s);
      QuietKeeps(k, now);
      QuietGetsCloser(k, s);
    }
  }

  // ------------------------------------------------------------------ draining

  function Ticks(k: Timing, s: State, n: nat): (r: State)
    requires Shaped(k, s)
    ensures Shaped(k, r)
    decreases n
  {
    if n == 0 then s else Ticks(k, Tick(k, s), n - 1)
  }

  /** How many ticks it takes to empty the queues. */
  ghost function TicksToDrain(k: Timing, s: State): nat
    requires Inv(k, s) && Healthy(k, s)
    decreases Load(s), SwitchesDue(k, s), Distance(s), TimeLeft(k, s)
  {
    if Load(s) == 0 then 0
    else
      TickGetsCloser(k, s);
      1 + TicksToDrain(k, Tick(k, s))
  }

  lemma TickKeepsPackets(k: Timing, s: State)
    requires Shaped(k, s)
    ensures Tick(k, s).packets.Keys == s.packets.Keys
  {
    hide Best;
  }

  lemma {:induction false} Drained(k: Timing, s: State)
    requires Inv(k, s) && Healthy(k, s)
    ensures var end := Ticks(k, s, TicksToDrain(k, s));
            Inv(k, end) && Load(end) == 0 && end.packets.Keys == s.packets.Keys
    decreases Load(s), SwitchesDue(k, s), Distance(s), TimeLeft(k, s)
  {
    hide Tick, Conserved, BanksAgree, ModeAgrees;
    if Load(s) > 0 {
      TickGetsCloser(k, s);
      TickKeepsPackets(k, s);
      Drained(k, Tick(k, s));
      assert TicksToDrain(k, s) == 1 + TicksToDrain(k, Tick(k, s));
    }
  }

  ghost predicate Empties(k: Timing, s: State)
    requires Shaped(k, s)
  {
    exists n: nat :: Load(Ticks(k, s, n)) == 0
  }

  lemma {:induction false} NoReadsAreAccepted(k: Timing, s: State, events: seq<Event>)
    requires k.rqSize == 0 && Inv(k, s) && s.rq == [] && LegalRun(k, s, events)
    ensures Run(k, s, events).rq == []
    decreases |events|
  {
    hide Tick, Conserved, BanksAgree, ModeAgrees;
    if events != [] {
      StepKeepsInv(k, s, events[0]);
      if events[0].TickOnce? {
        TickKeepsQueues(k, s);
      }
      NoReadsAreAccepted(k, Step(k, s, events[0]), events[1..]);
    }
  }

  /** A channel that is left alone empties both queues, whatever it has been given, and has
      then called the callback of every accepted packet. */
  lemma ChannelDrains(k: Timing, events: seq<Event>)
    requires k.wqSize >= 2 || k.rqSize == 0
    requires LegalRun(k, Initial(k), events)
    ensures Empties(k, Run(k, Initial(k), events))
    ensures var s := Run(k, Initial(k), events);
            exists n: nat :: Load(Ticks(k, s, n)) == 0 && forall id :: id in s.packets ==> id in Done(Ticks(k, s, n).completed)
  {
    InitialInv(k);
    RunKeepsInv(k, Initial(k), events);
    if k.wqSize < 2 {
      NoReadsAreAccepted(k, Initial(k), events);
    }
    var s := Run(k, Initial(k), events);
    Drained(k, s);
    var n := TicksToDrain(k, s);
    assert Load(Ticks(k, s, n)) == 0;
    assert forall id :: id in s.packets ==> id in Ticks(k, s, n).packets.Keys;
  }

  // ------------------------------------------------------------------ the livelock

  /** Reads wait, nothing is written, and no bank survives the next change of mode. */
  ghost predicate Stuck(k: Timing, s: State) {
    && Inv(k, s) && s.rq != [] && s.wq == [] && s.active == None
    && (s.writeMode ==> FirstReady(s.banks) == None)
  }

  /** With marks at zero the mode changes in every tick, and gives all packets back. */
  lemma StuckSwaps(k: Timing, s: State)
    requires k.wqSize < 2 && Shaped(k, s) && s.wq == [] && s.active == None
    ensures var t := BeforeService(k, s);
            && t.writeMode == !s.writeMode && t.active == None && t.rq == s.rq && t.wq == []
            && forall i :: 0 <= i < |t.banks| ==> !t.banks[i].valid
  {
    var now := s.(cycle := s.cycle + 1);
    assert HighWM(k) == 0 && LowWM(k) == 0;
    SwapIsOk(k, now);
    var swapped := Swap(k, now);
    assert forall i :: 0 <= i < |swapped.banks| ==> !swapped.banks[i].valid;
    NextRequestIsEarliest(swapped.banks, swapped.cycle, |swapped.banks|);
    assert Finish(k, now) == now && Populate(k, swapped) == swapped;
  }

  lemma StuckStays(k: Timing, s: State)
    requires k.wqSize < 2 && Stuck(k, s)
    ensures Stuck(k, Tick(k, s))
  {
    hide BeforeService, Conserved, BanksAgree, ModeAgrees;
    TickKeepsInv(k, s);
    StuckSwaps(k, s);
    var t := BeforeService(k, s);
    ServiceSparesBusyBanks(k, t, Best(k, t, Queue(t)).0);
    if t.writeMode {
      assert Best(k, t, Queue(t)).0 == None;
      assert Tick(k, s) == t;
    }
  }

  lemma {:induction false} StuckForever(k: Timing, s: State, n: nat)
    requires k.wqSize < 2 && Stuck(k, s)
    ensures Load(Ticks(k, s, n)) > 0
    decreases n
  {
    hide Tick, Conserved, BanksAgree, ModeAgrees;
    if n > 0 {
      StuckStays(k, s);
      StuckForever(k, Tick(k, s), n - 1);
    }
  }

  /** One read is enough to be stuck with a write queue of fewer than two places. */
  lemma OneReadIsStuck(k: Timing)
    requires k.wqSize < 2 && k.rqSize > 0
    ensures var read := [Request(0, Packet(0, false, 0, false))];
            LegalRun(k, Initial(k), read) && !Empties(k, Run(k, Initial(k), read))
  {
    hide Tick;
    var read := [Request(0, Packet(0, false, 0, false))];
    InitialInv(k);
    assert read[1..] == [];
    AddKeepsInv(k, Initial(k), 0, Packet(0, false, 0, false));
    var s := Step(k, Initial(k), read[0]);
    assert Run(k, Initial(k), read) == Run(k, s, []) == s;
    assert Stuck(k, s);
    forall n: nat ensures Load(Ticks(k, s, n)) > 0 { StuckForever(k, s, n); }
  }

  /** Exactly when the channel always drains: its write queue has two places or more, or it
      takes no reads. */
  lemma DrainsIfAndOnlyIf(k: Timing)
    ensures (forall events :: LegalRun(k, Initial(k), events) ==> Empties(k, Run(k, Initial(k), events)))
            <==> k.wqSize >= 2 || k.rqSize == 0
  {
    hide Tick, Step;
    if k.wqSize >= 2 || k.rqSize == 0 {
      forall events | LegalRun(k, Initial(k), events)
        ensures Empties(k, Run(k, Initial(k), events))
      {
        ChannelDrains(k, events);
      }
    } else {
      OneReadIsStuck(k);
    }
  }
}
