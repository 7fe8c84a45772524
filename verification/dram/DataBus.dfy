/** The data bus of the DRAM channel, and its changes of mode
    (internal/capabilities/memory/dram/operate.go), stated on runs: who gets the bus and for how
    long, when the mode changes, and what that does to the bus and to packets in service. */
module DataBus {
  import opened AddressMapping
  import opened Channel
  import opened Consistency
  import opened ServiceTimes

  // ------------------------------------------------ the data bus

  /** The bank gets the data bus. */
  predicate TakesBus(s: State, s': State, b: nat) {
    s'.active == Some(b) && s.active != Some(b)
  }

  /** A packet on the bus until cycle `due`; or called back then. */
  ghost predicate InTransit(s: State, b: nat, id: nat, due: nat) {
    if s.cycle < due
    then s.active == Some(b) && b < |s.banks| && s.banks[b].pkt == Some(id) && s.banks[b].readyTime == due
    else (id, due) in s.completed
  }

  lemma TransitGoesOn(k: Timing, s: State, e: Event, b: nat, id: nat, due: nat)
    requires Inv(k, s) && Legal(s, e) && InTransit(s, b, id, due)
    ensures InTransit(Step(k, s, e), b, id, due)
  {
    match e
    case Request(x, p) => RequestKeepsBanks(k, s, x, p);
    case TickOnce =>
      if s.cycle < due {
        TransitInTick(k, s, b, id, due);
      } else {
        CompletedStays(k, s, (id, due));
      }
  }

  lemma ServiceFrame(k: Timing, t: State, choice: Option<nat>)
    requires |t.banks| == k.mapping.TotalBanks() && (choice.Some? ==> choice.value in t.packets)
    ensures var s' := Service(k, t, choice);
            && s' == t.(banks := s'.banks, packets := s'.packets) && |s'.banks| == |t.banks|
            && forall i :: 0 <= i < |t.banks| && t.banks[i].valid ==> s'.banks[i] == t.banks[i]
  {
  }

  /** The choice of a packet leaves the bus, the queues, the mode and the busy banks alone. */
  lemma ServiceIsLocal(k: Timing, s: State)
    requires Shaped(k, s)
    ensures var t, s' := BeforeService(k, s), Tick(k, s);
            && s' == t.(banks := s'.banks, packets := s'.packets) && |s'.banks| == |t.banks|
            && forall i :: 0 <= i < |t.banks| && t.banks[i].valid ==> s'.banks[i] == t.banks[i]
  {
    var t := BeforeService(k, s);
    var choice := Best(k, t, Queue(t)).0;
    ServiceFrame(k, t, choice);
    assert Tick(k, s) == Service(k, t, choice);
    hide Tick, BeforeService, Best, Service;
  }

  lemma FinishCompletes(k: Timing, s: State)
    requires Shaped(k, s)
    ensures var t := Finish(k, s);
            && t.cycle == s.cycle && s.completed <= t.completed
            && (s.active.Some? && s.banks[s.active.value].readyTime <= s.cycle ==>
                  |t.completed| == |s.completed| + 1 && t.active == None
                  && t.completed[|s.completed|] == (s.banks[s.active.value].pkt.value, s.cycle))
            && (s.active == None || s.cycle < s.banks[s.active.value].readyTime ==> t == s)
  {
  }

  lemma SwapAndPopulateFrame(k: Timing, s: State)
    requires Shaped(k, s)
    ensures Shaped(k, Swap(k, s)) && Swap(k, s).completed == s.completed && Swap(k, s).active == s.active && Swap(k, s).cycle == s.cycle
    ensures var t := Populate(k, Swap(k, s));
            && t.cycle == s.cycle && t.completed == s.completed
            && (s.active.Some? ==> t == Swap(k, s) && t.banks[s.active.value] == s.banks[s.active.value])
  {
    SwapIsOk(k, s);
  }

  lemma CompletedStays(k: Timing, s: State, call: (nat, nat))
    requires Inv(k, s) && call in s.completed
    ensures call in Tick(k, s).completed
  {
    hide Inv, Shaped, Tick, BeforeService, Finish, Swap, Populate;
    var now, finished, swapped := Phases(k, s);
    ServiceIsLocal(k, s);
    FinishCompletes(k, now);
    SwapAndPopulateFrame(k, finished);
    assert forall i :: 0 <= i < |s.completed| ==> finished.completed[i] == s.completed[i];
  }

  lemma BusyBank(k: Timing, s: State, b: nat)
    requires Inv(k, s) && s.active == Some(b)
    ensures b < |s.banks| && s.banks[b].valid
  {
  }

  lemma TransitInTick(k: Timing, s: State, b: nat, id: nat, due: nat)
    requires Inv(k, s) && s.cycle < due && InTransit(s, b, id, due)
    ensures InTransit(Tick(k, s), b, id, due)
  {
    hide Inv, Shaped, Tick, BeforeService, Finish, Swap, Populate;
    var now, finished, swapped := Phases(k, s);
    ServiceIsLocal(k, s);
    FinishCompletes(k, now);
    SwapAndPopulateFrame(k, finished);
    BusyBank(k, now, b);
    if now.cycle >= due {
      assert finished.completed[|now.completed|] == (id, due);
    }
  }

  lemma {:induction false} TransitEnds(k: Timing, s: State, events: seq<Event>, b: nat, id: nat, due: nat)
    requires Inv(k, s) && LegalRun(k, s, events) && InTransit(s, b, id, due)
    ensures InTransit(Run(k, s, events), b, id, due)
    decreases |events|
  {
    assert Shaped(k, s);
    if events != [] {
      TransitGoesOn(k, s, events[0], b, id, due);
      StepKeepsInv(k, s, events[0]);
      hide Inv, Step, InTransit;
      TransitEnds(k, Step(k, s, events[0]), events[1..], b, id, due);
    }
  }

  lemma PopulateTakes(k: Timing, s: State, b: nat)
    requires Shaped(k, s) && TakesBus(s, Populate(k, s), b)
    ensures var t := Populate(k, s);
            && s.active == None && b < |t.banks| && t.banks[b].valid && t.banks[b].pkt.Some?
            && t.banks[b].readyTime == s.cycle + 8 && t.cycle == s.cycle
  {
  }

  lemma BusTaken(k: Timing, s: State, b: nat)
    requires Inv(k, s) && TakesBus(s, Tick(k, s), b)
    ensures var s' := Tick(k, s);
            && b < |s'.banks| && s'.banks[b].pkt.Some?
            && InTransit(s', b, s'.banks[b].pkt.value, s'.cycle + 8)
  {
    hide Inv, Shaped, Tick, BeforeService, Finish, Swap, Populate;
    var now, finished, swapped := Phases(k, s);
    ServiceIsLocal(k, s);
    FinishCompletes(k, now);
    SwapAndPopulateFrame(k, finished);
    PopulateTakes(k, swapped, b);
  }

  /** A burst takes 8 cycles. A packet whose bank gets the data bus in some tick keeps the bus,
      whatever else happens, and its callback comes 8 cycles later and not before. */
  lemma BurstTakesEightCycles(k: Timing, events: seq<Event>, b: nat, more: seq<Event>)
    requires LegalRun(k, Initial(k), events) && LegalRun(k, Tick(k, Run(k, Initial(k), events)), more)
    ensures var s := Run(k, Initial(k), events);
            var s' := Tick(k, s);
            TakesBus(s, s', b) ==>
              && b < |s'.banks| && s'.banks[b].pkt.Some?
              && InTransit(Run(k, s', more), b, s'.banks[b].pkt.value, s'.cycle + 8)
  {
    hide Inv, Run, Tick, LegalRun, Initial, InTransit;
    InitialInv(k);
    RunKeepsInv(k, Initial(k), events);
    var s := Run(k, Initial(k), events);
    TickKeepsInv(k, s);
    if TakesBus(s, Tick(k, s), b) {
      BusTaken(k, s, b);
      var s' := Tick(k, s);
      TransitEnds(k, s', more, b, s'.banks[b].pkt.value, s'.cycle + 8);
    }
  }

  // ------------------------------------------------ who gets the bus, and when

  /** Busy since before this tick: not with a packet that has begun in it. */
  predicate WasBusy(s: State, s': State, i: nat)
    requires i < |s.banks| == |s'.banks|
  {
    s'.banks[i].valid && s'.banks[i].pkt.Some? && !Begins(s, s', s'.banks[i].pkt.value)
  }

  lemma PopulateGives(k: Timing, s: State)
    requires Shaped(k, s)
    ensures var t := Populate(k, s);
            && (s.active == None && s.dbusAvailable <= s.cycle ==>
                  match t.active
                  case None => t == s && forall i :: 0 <= i < |s.banks| && s.banks[i].valid ==> s.banks[i].readyTime > s.cycle
                  case Some(b) =>
                    && b < |s.banks| && s.banks[b].valid && s.banks[b].readyTime <= s.cycle && t.dbusAvailable == s.cycle + 8
                    && (forall i :: 0 <= i < |s.banks| && s.banks[i].valid ==> s.banks[b].readyTime <= s.banks[i].readyTime)
                    && (forall i :: 0 <= i < b && s.banks[i].valid ==> s.banks[b].readyTime < s.banks[i].readyTime))
            && (s.active.Some? || s.dbusAvailable > s.cycle ==> t == s)
            && |t.banks| == |s.banks|
            && forall i :: 0 <= i < |s.banks| && t.active != Some(i) ==> t.banks[i] == s.banks[i]
  {
    NextRequestIsEarliest(s.banks, s.cycle, |s.banks|);
  }

  lemma ValidOnlyFromBefore(k: Timing, s: State, i: nat)
    requires Shaped(k, s) && i < |s.banks|
    ensures i < |Finish(k, s).banks| && (Finish(k, s).banks[i].valid ==> Finish(k, s).banks[i] == s.banks[i])
    ensures i < |Swap(k, s).banks| && (Swap(k, s).banks[i].valid ==> Swap(k, s).banks[i] == s.banks[i])
    ensures i < |Populate(k, s).banks| && Populate(k, s).banks[i].valid == s.banks[i].valid
  {
  }

  lemma BusyBeforeService(k: Timing, s: State, i: nat)
    requires Inv(k, s) && i < |s.banks| == |Tick(k, s).banks| == |BeforeService(k, s).banks| && WasBusy(s, Tick(k, s), i)
    ensures BeforeService(k, s).banks[i].valid
  {
    var t := BeforeService(k, s);
    var choice := Best(k, t, Queue(t)).0;
    assert Tick(k, s) == Service(k, t, choice);
    ServiceOnBank(k, t, choice, i);
    if choice.Some? {
      ChoiceWasUnscheduled(k, s, choice.value);
    }
    hide Inv, Shaped, Tick, BeforeService, Finish, Swap, Populate, Best, Service;
  }

  /** Such a bank has not changed when the bus is given away. */
  lemma BusyThrough(k: Timing, s: State, i: nat)
    requires Inv(k, s) && i < |s.banks| == |Tick(k, s).banks| && WasBusy(s, Tick(k, s), i)
    ensures var t := BeforeBus(k, s);
            i < |t.banks| && t.banks[i].valid && t.banks[i] == s.banks[i]
  {
    hide Inv, Shaped, Tick, BeforeService, Finish, Swap, Populate, BeforeBus, WasBusy;
    var now, finished, swapped := Phases(k, s);
    BankCounts(k, now);
    BankCounts(k, finished);
    BankCounts(k, swapped);
    BusyBeforeService(k, s, i);
    ValidOnlyFromBefore(k, now, i);
    ValidOnlyFromBefore(k, finished, i);
    ValidOnlyFromBefore(k, swapped, i);
  }

  lemma TickKeepsBankCount(k: Timing, s: State)
    requires Shaped(k, s)
    ensures |Tick(k, s).banks| == |s.banks|
  {
  }

  /** The bus goes to the bank that has been ready longest, and among those to the first. It
      stays idle only while it has to rest, or if no bank that was busy before is ready. */
  lemma BusGoesToTheEarliest(k: Timing, events: seq<Event>, i: nat)
    requires LegalRun(k, Initial(k), events)
    ensures var s := Run(k, Initial(k), events);
            var s' := Tick(k, s);
            && |s'.banks| == |s.banks|
            && (i < |s.banks| && WasBusy(s, s', i) ==>
                  && (s'.active.Some? && TakesBus(s, s', s'.active.value) ==>
                        var b := s'.active.value;
                        && b < |s.banks| && s.banks[b].valid && s.banks[b].readyTime <= s'.cycle
                        && s.banks[b].readyTime <= s.banks[i].readyTime
                        && (i < b ==> s.banks[b].readyTime < s.banks[i].readyTime))
                  && (s'.active == None ==> s'.dbusAvailable > s'.cycle || s.banks[i].readyTime > s'.cycle))
  {
    hide Inv, Shaped, Tick, Run, LegalRun, WasBusy, Initial, BeforeBus;
    InitialInv(k);
    RunKeepsInv(k, Initial(k), events);
    var s := Run(k, Initial(k), events);
    var now, finished, swapped := Phases(k, s);
    TickKeepsBankCount(k, s);
    if i < |s.banks| && WasBusy(s, Tick(k, s), i) {
      BusyThrough(k, s, i);
      BusOrder(k, s, i);
    }
  }

  lemma BusOrder(k: Timing, s: State, i: nat)
    requires Inv(k, s) && i < |s.banks|
    requires var t := BeforeBus(k, s);
             i < |t.banks| && t.banks[i].valid && t.banks[i] == s.banks[i]
    ensures var s' := Tick(k, s);
            && (s'.active.Some? && TakesBus(s, s', s'.active.value) ==>
                  var b := s'.active.value;
                  && b < |s.banks| && s.banks[b].valid && s.banks[b].readyTime <= s'.cycle
                  && s.banks[b].readyTime <= s.banks[i].readyTime
                  && (i < b ==> s.banks[b].readyTime < s.banks[i].readyTime))
            && (s'.active == None ==> s'.dbusAvailable > s'.cycle || s.banks[i].readyTime > s'.cycle)
  {
    hide Inv, Shaped, Tick, BeforeService, Finish, Swap, Populate, BeforeBus;
    var now, finished, swapped := Phases(k, s);
    ServiceIsLocal(k, s);
    FinishCompletes(k, now);
    SwapAndPopulateFrame(k, finished);
    PopulateGives(k, swapped);
    var active := Tick(k, s).active;
    if active.Some? && TakesBus(s, Tick(k, s), active.value) {
      BankCounts(k, now);
      BankCounts(k, finished);
      ValidOnlyFromBefore(k, now, active.value);
      ValidOnlyFromBefore(k, finished, active.value);
    }
  }

  lemma BankCounts(k: Timing, s: State)
    requires Shaped(k, s)
    ensures |Finish(k, s).banks| == |Swap(k, s).banks| == |Populate(k, s).banks| == |s.banks|
  {
  }

  // ------------------------------------------------ changes of mode

  lemma SwapDecides(k: Timing, s: State)
    requires Shaped(k, s)
    ensures var t := Swap(k, s);
            && t.rq == s.rq && t.wq == s.wq
            && (t.writeMode != s.writeMode <==>
                  if s.writeMode then |s.wq| == 0 || (|s.rq| > 0 && |s.wq| < k.wqSize * 6 / 8)
                  else |s.wq| >= k.wqSize * 7 / 8 || (|s.rq| == 0 && |s.wq| > 0))
            && (t.writeMode != s.writeMode ==>
                  t.dbusAvailable == k.tRAS + if s.active.Some? then s.banks[s.active.value].readyTime else s.cycle)
            && (t.writeMode == s.writeMode ==> t.dbusAvailable == s.dbusAvailable)
            && (s.active.Some? ==> t.banks[s.active.value] == s.banks[s.active.value])
  {
  }

  lemma OthersKeepTheMode(k: Timing, s: State)
    requires Shaped(k, s)
    ensures Finish(k, s).writeMode == s.writeMode && Finish(k, s).dbusAvailable == s.dbusAvailable
    ensures Populate(k, s).writeMode == s.writeMode && Populate(k, s).rq == s.rq && Populate(k, s).wq == s.wq
  {
  }

  /** The mode changes exactly at the marks, seven and six eighths of the write queue, with the
      queues as they are once the packet on the bus has been called back: reading gives way to
      a write queue filled to the upper mark, or to any write if no read waits; writing gives
      way to an empty write queue, or to any read once it is below the lower mark. */
  lemma ModeChangesAtTheMarks(k: Timing, events: seq<Event>)
    requires LegalRun(k, Initial(k), events)
    ensures var s := Run(k, Initial(k), events);
            var s' := Tick(k, s);
            s'.writeMode != s.writeMode <==>
              if s.writeMode then |s'.wq| == 0 || (|s'.rq| > 0 && |s'.wq| < k.wqSize * 6 / 8)
              else |s'.wq| >= k.wqSize * 7 / 8 || (|s'.rq| == 0 && |s'.wq| > 0)
  {
    hide Inv, Shaped, Tick, Run, LegalRun, Initial, BeforeBus, BeforeService, Finish, Swap, Populate;
    InitialInv(k);
    RunKeepsInv(k, Initial(k), events);
    var s := Run(k, Initial(k), events);
    var now, finished, swapped := Phases(k, s);
    ServiceIsLocal(k, s);
    OthersKeepTheMode(k, now);
    SwapDecides(k, finished);
    OthersKeepTheMode(k, swapped);
  }

  /** The bus rests until `rest`: nobody has got it since the burst, if any, that was under way
      at `start`, which ended tRAS before. */
  ghost predicate Resting(k: Timing, s: State, start: nat) {
    || s.cycle >= start + k.tRAS
    || (s.dbusAvailable >= start + k.tRAS
        && if s.active.Some? then s.active.value < |s.banks| && s.banks[s.active.value].readyTime >= start else s.cycle >= start)
  }

  lemma RestingInTick(k: Timing, s: State, start: nat)
    requires Inv(k, s) && Resting(k, s, start)
    ensures Resting(k, Tick(k, s), start)
    ensures s.cycle + 1 < start + k.tRAS ==> forall b :: !TakesBus(s, Tick(k, s), b)
  {
    hide Inv, Shaped, Tick, BeforeBus, BeforeService, Finish, Swap, Populate;
    var now, finished, swapped := Phases(k, s);
    ServiceIsLocal(k, s);
    FinishCompletes(k, now);
    OthersKeepTheMode(k, now);
    SwapDecides(k, finished);
    SwapAndPopulateFrame(k, finished);
    PopulateGives(k, swapped);
    BankCounts(k, finished);
    if s.active.Some? {
      BusyBank(k, s, s.active.value);
      if finished.active.Some? {
        ActiveStays(k, s);
      }
    }
  }

  /** A burst that is not over at the next tick goes on. */
  lemma ActiveStays(k: Timing, s: State)
    requires Inv(k, s) && s.active.Some? && BeforeBus(k, s).active.Some?
    ensures var b := s.active.value;
            && b < |s.banks| && BeforeBus(k, s).active == Some(b) && Tick(k, s).active == Some(b)
            && b < |Tick(k, s).banks| && Tick(k, s).banks[b] == s.banks[b]
  {
    hide Inv, Shaped, Tick, BeforeBus, BeforeService, Finish, Swap, Populate;
    var now, finished, swapped := Phases(k, s);
    ServiceIsLocal(k, s);
    FinishCompletes(k, now);
    SwapAndPopulateFrame(k, finished);
    SwapDecides(k, finished);
    BusyBank(k, s, s.active.value);
    BusyBank(k, BeforeService(k, s), s.active.value);
  }

  lemma RestInStep(k: Timing, s: State, e: Event, start: nat)
    requires Inv(k, s) && Legal(s, e) && Resting(k, s, start)
    ensures Resting(k, Step(k, s, e), start)
  {
    match e
    case Request(id, p) => RequestKeepsBanks(k, s, id, p);
    case TickOnce => RestingInTick(k, s, start);
  }

  lemma {:induction false} RestGoesOn(k: Timing, s: State, events: seq<Event>, start: nat)
    requires Inv(k, s) && LegalRun(k, s, events) && Resting(k, s, start)
    ensures Resting(k, Run(k, s, events), start)
    decreases |events|
  {
    assert Shaped(k, s);
    if events != [] {
      RestInStep(k, s, events[0], start);
      StepKeepsInv(k, s, events[0]);
      hide Inv, Step, Resting;
      RestGoesOn(k, Step(k, s, events[0]), events[1..], start);
    }
  }

  /** The bus turns around. After a change of mode no bank gets the data bus until tRAS cycles
      have passed since the change, or since the end of the burst that was under way. */
  lemma BusTurnsAround(k: Timing, events: seq<Event>, more: seq<Event>, b: nat)
    requires LegalRun(k, Initial(k), events) && LegalRun(k, Tick(k, Run(k, Initial(k), events)), more)
    ensures var s := Run(k, Initial(k), events);
            var s' := Tick(k, s);
            var u := Run(k, s', more);
            s'.writeMode != s.writeMode && TakesBus(u, Tick(k, u), b) ==>
              && (s'.active.Some? ==> s'.active.value < |s'.banks|)
              && u.cycle + 1 >= k.tRAS + if s'.active.Some? then s'.banks[s'.active.value].readyTime else s'.cycle
  {
    hide Inv, Shaped, Run, Tick, LegalRun, Initial, Resting;
    InitialInv(k);
    RunKeepsInv(k, Initial(k), events);
    var s := Run(k, Initial(k), events);
    TickKeepsInv(k, s);
    var s' := Tick(k, s);
    if s'.writeMode != s.writeMode {
      SwitchRests(k, s);
      var start := if s'.active.Some? then s'.banks[s'.active.value].readyTime else s'.cycle;
      RestGoesOn(k, s', more, start);
      RunKeepsInv(k, s', more);
      RestingInTick(k, Run(k, s', more), start);
    }
  }

  lemma SwitchRests(k: Timing, s: State)
    requires Inv(k, s) && Tick(k, s).writeMode != s.writeMode
    ensures var s' := Tick(k, s);
            && (s'.active.Some? ==> s'.active.value < |s'.banks|)
            && Resting(k, s', if s'.active.Some? then s'.banks[s'.active.value].readyTime else s'.cycle)
  {
    hide Inv, Shaped, Tick, BeforeBus, BeforeService, Finish, Swap, Populate;
    var now, finished, swapped := Phases(k, s);
    ServiceIsLocal(k, s);
    FinishCompletes(k, now);
    OthersKeepTheMode(k, now);
    OthersKeepTheMode(k, swapped);
    SwapDecides(k, finished);
    SwapAndPopulateFrame(k, finished);
    PopulateGives(k, swapped);
    SwitchLeavesNobody(k, finished);
    if s.active.Some? && finished.active.Some? {
      ActiveStays(k, s);
    }
  }

  /** And nobody gets it in the very tick of the change. */
  lemma NobodyTakesAtTheChange(k: Timing, events: seq<Event>, b: nat)
    requires LegalRun(k, Initial(k), events)
    ensures var s := Run(k, Initial(k), events);
            var s' := Tick(k, s);
            s'.writeMode != s.writeMode ==> !TakesBus(s, s', b)
  {
    hide Inv, Shaped, Run, Tick, LegalRun, Initial, BeforeBus, BeforeService, Finish, Swap, Populate;
    InitialInv(k);
    RunKeepsInv(k, Initial(k), events);
    var s := Run(k, Initial(k), events);
    var now, finished, swapped := Phases(k, s);
    ServiceIsLocal(k, s);
    FinishCompletes(k, now);
    OthersKeepTheMode(k, now);
    OthersKeepTheMode(k, swapped);
    SwitchedBus(k, finished);
    FinishOnlyClears(k, now);
  }

  lemma FinishOnlyClears(k: Timing, s: State)
    requires Shaped(k, s)
    ensures Finish(k, s).active == s.active || Finish(k, s).active == None
  {
  }

  lemma SwitchLeavesNobody(k: Timing, s: State)
    requires Shaped(k, s) && Swap(k, s).writeMode != s.writeMode
    ensures |Swap(k, s).banks| == |s.banks|
    ensures forall i :: 0 <= i < |s.banks| && s.active != Some(i) ==> !Swap(k, s).banks[i].valid
  {
  }

  /** A packet that a bank gives back waits again, as if it had come in this cycle; and on a
      change of mode every bank gives its packet back, except the one on the bus. */
  lemma ChangeOfModeGivesBack(k: Timing, events: seq<Event>, id: nat)
    requires LegalRun(k, Initial(k), events)
    ensures var s := Run(k, Initial(k), events);
            var s' := Tick(k, s);
            id in s.packets && Queued(s', id) && s.packets[id].scheduled ==>
              && id in s'.packets && BankOf(k, s.packets[id]) < |s.banks|
              && s'.packets[id] ==
                 if s'.writeMode != s.writeMode && s'.active != Some(BankOf(k, s.packets[id]))
                 then s.packets[id].(scheduled := false, readyTime := s'.cycle) else s.packets[id]
  {
    hide Inv, Shaped, Tick, Run, LegalRun, Initial, Queued;
    InitialInv(k);
    RunKeepsInv(k, Initial(k), events);
    var s := Run(k, Initial(k), events);
    if id in s.packets && Queued(Tick(k, s), id) && s.packets[id].scheduled {
      GivesBack(k, s, id);
    }
  }

  lemma GivesBack(k: Timing, s: State, id: nat)
    requires Inv(k, s) && id in s.packets && Queued(Tick(k, s), id) && s.packets[id].scheduled
    ensures var s' := Tick(k, s);
            && id in s'.packets && BankOf(k, s.packets[id]) < |s.banks|
            && s'.packets[id] ==
               if s'.writeMode != s.writeMode && s'.active != Some(BankOf(k, s.packets[id]))
               then s.packets[id].(scheduled := false, readyTime := s'.cycle) else s.packets[id]
  {
    hide Inv, Shaped, Tick, BeforeBus, BeforeService, Finish, Swap, Populate;
    var now, finished, swapped := Phases(k, s);
    var s', b := Tick(k, s), BankOf(k, s.packets[id]);
    ServiceIsLocal(k, s);
    PacketsInFinish(k, now);
    OthersKeepTheMode(k, now);
    OthersKeepTheMode(k, swapped);
    FinishCompletes(k, now);
    SwapDecides(k, finished);
    StillQueued(k, finished, id);
    SwappedPacket(k, finished, id);
    SwapAndPopulateFrame(k, finished);
    PopulateGives(k, swapped);
    SwitchedBus(k, finished);
    PacketsInPopulate(k, swapped);
    PacketsInService(k, s, id);
    BankCounts(k, now);
    BankCounts(k, finished);
    BankCounts(k, swapped);
  }

  lemma PacketsInFinish(k: Timing, s: State)
    requires Inv(k, s)
    ensures Finish(k, s).packets == s.packets
    ensures forall id :: Queued(Finish(k, s), id) ==> Queued(s, id)
    ensures Finish(k, s).cycle == s.cycle
  {
    FinishKeepsInv(k, s);
    if CanFinish(s) {
      RemoveKeepsOthers(s.rq, s.banks[s.active.value].pkt.value);
      RemoveKeepsOthers(s.wq, s.banks[s.active.value].pkt.value);
    }
  }

  lemma PacketsInPopulate(k: Timing, s: State)
    requires Shaped(k, s)
    ensures Populate(k, s).packets == s.packets && Populate(k, s).cycle == s.cycle
  {
  }

  /** After a change of mode nobody is ready for the bus. */
  lemma SwitchedBus(k: Timing, s: State)
    requires Shaped(k, s) && Shaped(k, Swap(k, s))
    ensures Swap(k, s).writeMode != s.writeMode ==> Populate(k, Swap(k, s)).active == s.active
  {
    if Swap(k, s).writeMode != s.writeMode {
      SwitchLeavesNobody(k, s);
    }
  }

  lemma StillQueued(k: Timing, s: State, id: nat)
    requires Inv(k, s) && id in s.packets && s.packets[id].scheduled && Queued(s, id)
    ensures HeldBy(k, s, id, BankOf(k, s.packets[id]))
  {
  }

  lemma SwappedPacket(k: Timing, s: State, id: nat)
    requires Inv(k, s) && id in s.packets && HeldBy(k, s, id, BankOf(k, s.packets[id]))
    ensures id in Swap(k, s).packets && Swap(k, s).cycle == s.cycle
    ensures Swap(k, s).packets[id] ==
            if Swap(k, s).writeMode != s.writeMode && s.active != Some(BankOf(k, s.packets[id]))
            then s.packets[id].(scheduled := false, readyTime := s.cycle) else s.packets[id]
  {
    GivenBackByOwnBank(k, s, id);
    hide Inv, GivenBack;
  }

  lemma PacketsInService(k: Timing, s: State, id: nat)
    requires Inv(k, s) && id in s.packets && s.packets[id].scheduled
    ensures id in BeforeService(k, s).packets ==>
              id in Tick(k, s).packets && Tick(k, s).packets[id] == BeforeService(k, s).packets[id]
  {
    var t := BeforeService(k, s);
    var choice := Best(k, t, Queue(t)).0;
    assert Tick(k, s) == Service(k, t, choice);
    if choice.Some? {
      ChoiceWasUnscheduled(k, s, choice.value);
    }
    hide Inv, BeforeService, Best, Tick;
  }
}
