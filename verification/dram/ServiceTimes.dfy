/** How long a bank of the DRAM channel takes for a packet
    (internal/capabilities/memory/dram/schedule.go, servicePacket), stated on runs: it depends
    on the row that the bank has served last. */
module ServiceTimes {
  import opened AddressMapping
  import opened Channel
  import opened Consistency

  // ------------------------------------------------ the row that is open

  /** A change of mode closes the row of a bank that has to give its packet back, unless the
      bank would have been busy for the time of a column access. */
  predicate Closes(k: Timing, s: State, s': State, b: nat)
    requires b < |s.banks|
  {
    && s'.writeMode != s.writeMode && s.banks[b].valid && s.active != Some(b)
    && s.banks[b].readyTime < s'.cycle + k.tCAS
  }

  /** The packet has been given to its bank. */
  predicate Begins(s: State, s': State, id: nat) {
    id in s.packets && id in s'.packets && !s.packets[id].scheduled && s'.packets[id].scheduled
  }

  /** The row open in bank b for whoever comes next, from the row served last. */
  function StillOpen(k: Timing, s: State, s': State, b: nat, last: Option<nat>): Option<nat>
    requires b < |s.banks|
  {
    if Closes(k, s, s', b) then None else last
  }

  function RowAfter(k: Timing, s: State, s': State, b: nat, last: Option<nat>): Option<nat>
    requires b < |s.banks| == |s'.banks|
  {
    var held := s'.banks[b].pkt;
    if held.Some? && Begins(s, s', held.value) then Some(RowOf(k, s'.packets[held.value]))
    else StillOpen(k, s, s', b, last)
  }

  /** The row that bank b has served last in a run, if nothing has closed it since. */
  function RowHistory(k: Timing, s: State, b: nat, last: Option<nat>, events: seq<Event>): Option<nat>
    requires Shaped(k, s) && b < k.mapping.TotalBanks()
    decreases |events|
  {
    if events == [] then last
    else RowHistory(k, Step(k, s, events[0]), b, RowAfter(k, s, Step(k, s, events[0]), b, last), events[1..])
  }

  // ------------------------------------------------ a tick, bank by bank

  lemma FinishOnBank(k: Timing, s: State, b: nat)
    requires Shaped(k, s) && b < |s.banks|
    ensures var t := Finish(k, s);
            && t.cycle == s.cycle && t.writeMode == s.writeMode && t.packets == s.packets && |t.banks| == |s.banks|
            && t.banks[b].openRow == s.banks[b].openRow && t.banks[b].readyTime == s.banks[b].readyTime
            && (s.active != Some(b) ==> t.banks[b] == s.banks[b] && t.active != Some(b))
            && (s.active == Some(b) && t.active != Some(b) ==> !t.banks[b].valid)
  {
  }

  lemma SwapOnBank(k: Timing, s: State, b: nat)
    requires Shaped(k, s) && b < |s.banks|
    ensures var t := Swap(k, s);
            && t.cycle == s.cycle && t.active == s.active && |t.banks| == |s.banks|
            && (t.writeMode == s.writeMode ==> t == s)
            && (t.writeMode != s.writeMode && s.banks[b].valid && s.active != Some(b) ==>
                  t.banks[b] == Bank(false, if s.banks[b].readyTime < s.cycle + k.tCAS then None else s.banks[b].openRow, s.banks[b].readyTime, None))
            && (!s.banks[b].valid || s.active == Some(b) ==> t.banks[b] == s.banks[b])
  {
  }

  /** The same packets, and none that has been given to a bank. */
  ghost predicate NoneBegins(s: State, t: State) {
    && t.packets.Keys == s.packets.Keys
    && forall id :: id in t.packets ==>
         && t.packets[id].address == s.packets[id].address && t.packets[id].isWrite == s.packets[id].isWrite
         && (t.packets[id].scheduled ==> s.packets[id].scheduled)
  }

  lemma SwapBeginsNothing(k: Timing, s: State)
    requires Shaped(k, s)
    ensures NoneBegins(s, Swap(k, s))
  {
  }

  lemma PopulateOnBank(k: Timing, s: State, b: nat)
    requires Shaped(k, s) && b < |s.banks|
    ensures var t := Populate(k, s);
            && t.cycle == s.cycle && t.writeMode == s.writeMode && t.packets == s.packets && |t.banks| == |s.banks|
            && t.banks[b] == s.banks[b].(readyTime := t.banks[b].readyTime)
  {
  }

  /** The state in which the bus is given away. */
  function BeforeBus(k: Timing, s: State): (t: State)
    requires Shaped(k, s)
    ensures Shaped(k, t)
  {
    var now := s.(cycle := s.cycle + 1);
    FinishIsOk(k, now);
    SwapIsOk(k, Finish(k, now));
    Swap(k, Finish(k, now))
  }

  /** The states between the steps of a tick. */
  lemma Phases(k: Timing, s: State) returns (now: State, finished: State, swapped: State)
    requires Inv(k, s)
    ensures now == s.(cycle := s.cycle + 1) && Inv(k, now)
    ensures Inv(k, finished) && finished == Finish(k, now)
    ensures Inv(k, swapped) && swapped == Swap(k, finished) == BeforeBus(k, s)
    ensures Inv(k, BeforeService(k, s)) && BeforeService(k, s) == Populate(k, swapped)
    ensures Shaped(k, s) && Shaped(k, now) && Shaped(k, finished) && Shaped(k, swapped) && Shaped(k, BeforeService(k, s))
  {
    hide Conserved, BanksAgree, ModeAgrees, Finish, Swap, Populate;
    now := s.(cycle := s.cycle + 1);
    CycleKeepsInv(k, s);
    FinishKeepsInv(k, now);
    finished := Finish(k, now);
    SwapKeepsInv(k, finished);
    swapped := Swap(k, finished);
    PopulateKeepsInv(k, swapped);
  }

  /** What bank b looks like when a packet is chosen, after the bus and the mode have been
      seen to. */
  lemma BeforeServiceOnBank(k: Timing, s: State, b: nat)
    requires Inv(k, s) && b < |s.banks|
    ensures var t := BeforeService(k, s);
            && t.cycle == s.cycle + 1 && |t.banks| == |s.banks|
            && t.banks[b].openRow == (if Closes(k, s, t, b) then None else s.banks[b].openRow)
  {
    var now, finished, swapped := Phases(k, s);
    FinishOnBank(k, now, b);
    SwapOnBank(k, finished, b);
    PopulateOnBank(k, swapped, b);
    hide Finish, Swap, Populate, Inv, BeforeService;
    ClosedInSwap(k, s, now, finished, swapped, b);
  }

  lemma ClosedInSwap(k: Timing, s: State, now: State, t1: State, t2: State, b: nat)
    requires now == s.(cycle := s.cycle + 1) && b < |s.banks| == |t1.banks| == |t2.banks|
    requires t1.cycle == now.cycle && t1.writeMode == now.writeMode && t1.banks[b].openRow == now.banks[b].openRow
    requires t1.banks[b].readyTime == now.banks[b].readyTime
    requires now.active != Some(b) ==> t1.banks[b] == now.banks[b] && t1.active != Some(b)
    requires now.active == Some(b) && t1.active != Some(b) ==> !t1.banks[b].valid
    requires t2.cycle == t1.cycle && (t2.writeMode == t1.writeMode ==> t2 == t1)
    requires t2.writeMode != t1.writeMode && t1.banks[b].valid && t1.active != Some(b) ==>
               t2.banks[b] == Bank(false, if t1.banks[b].readyTime < t1.cycle + k.tCAS then None else t1.banks[b].openRow, t1.banks[b].readyTime, None)
    requires !t1.banks[b].valid || t1.active == Some(b) ==> t2.banks[b] == t1.banks[b]
    ensures t2.banks[b].openRow == if Closes(k, s, t2, b) then None else s.banks[b].openRow
  {
  }

  lemma NothingBeginsBefore(k: Timing, s: State)
    requires Inv(k, s)
    ensures NoneBegins(s, BeforeService(k, s))
  {
    var now, finished, swapped := Phases(k, s);
    assert finished.packets == s.packets;
    SwapBeginsNothing(k, finished);
    assert Populate(k, swapped).packets == swapped.packets;
    hide Finish, Swap, Populate, Inv, BeforeService;
  }

  /** A packet given back belongs to the old mode, so it is not chosen in the same tick. */
  lemma GivenBackIsOld(k: Timing, s: State, id: nat)
    requires Inv(k, s) && id in GivenBack(s, |s.banks|)
    ensures id in Queue(s)
  {
    var i :| 0 <= i < |s.banks| && Resets(s, i) && s.banks[i].pkt.value == id;
  }

  lemma ChosenAfterSwap(k: Timing, s: State, id: nat)
    requires Inv(k, s) && id in s.packets && id in Queue(Swap(k, s)) && id in Swap(k, s).packets && !Swap(k, s).packets[id].scheduled
    ensures !s.packets[id].scheduled
  {
    forall x | x in GivenBack(s, |s.banks|) ensures x in Queue(s) { GivenBackIsOld(k, s, x); }
    assert Conserved(s);
    hide GivenBack, BanksAgree, ModeAgrees;
  }

  lemma ChoiceWasUnscheduled(k: Timing, s: State, id: nat)
    requires Inv(k, s) && id in Queue(BeforeService(k, s)) && id in BeforeService(k, s).packets && !BeforeService(k, s).packets[id].scheduled
    ensures id in s.packets && !s.packets[id].scheduled
  {
    var now, finished, swapped := Phases(k, s);
    assert finished.packets == s.packets;
    assert Populate(k, swapped).packets == swapped.packets && Queue(Populate(k, swapped)) == Queue(swapped);
    SwapBeginsNothing(k, finished);
    hide Finish, Swap, Populate, Inv, BeforeService;
    ChosenAfterSwap(k, finished, id);
  }

  /** A packet that begins is the chosen one. Its bank opens its row, for a time that depends
      on the row it finds. */
  lemma ServiceBegins(k: Timing, s: State, id: nat)
    requires Inv(k, s) && Begins(s, Tick(k, s), id)
    ensures var t, b, row := BeforeService(k, s), BankOf(k, s.packets[id]), RowOf(k, s.packets[id]);
            && b < |t.banks| && Tick(k, s).packets[id].address == s.packets[id].address
            && Tick(k, s).banks[b] == Bank(true, Some(row), t.cycle + Latency(k, t.banks[b], row), Some(id))
  {
    NothingBeginsBefore(k, s);
    var t := BeforeService(k, s);
    var choice := Best(k, t, Queue(t)).0;
    assert Tick(k, s) == Service(k, t, choice);
    ServiceOfChoice(k, t, choice);
    hide BeforeService, Best, Inv, Service, Latency;
  }

  lemma ServiceOfChoice(k: Timing, t: State, choice: Option<nat>)
    requires |t.banks| == k.mapping.TotalBanks() && (choice.Some? ==> choice.value in t.packets)
    ensures var s' := Service(k, t, choice);
            && (s' == t || choice.Some?) && s'.packets.Keys == t.packets.Keys
            && (forall id :: id in t.packets && Some(id) != choice ==> s'.packets[id] == t.packets[id])
            && (choice.Some? ==>
                  var p := t.packets[choice.value];
                  var b, row := BankOf(k, p), RowOf(k, p);
                  || s' == t
                  || (s'.banks[b] == Bank(true, Some(row), t.cycle + Latency(k, t.banks[b], row), choice)
                      && s'.packets[choice.value] == p.(scheduled := true)))
  {
  }

  /** Service gives a packet to one bank, or does nothing. */
  lemma ServiceOnBank(k: Timing, t: State, choice: Option<nat>, b: nat)
    requires |t.banks| == k.mapping.TotalBanks() && (choice.Some? ==> choice.value in t.packets) && b < |t.banks|
    ensures var s' := Service(k, t, choice);
            && |s'.banks| == |t.banks| && s'.cycle == t.cycle && s'.writeMode == t.writeMode
            && (s'.banks[b] == t.banks[b]
                || (choice.Some? && BankOf(k, t.packets[choice.value]) == b && s'.banks[b].pkt == choice
                    && s'.packets == t.packets[choice.value := t.packets[choice.value].(scheduled := true)]
                    && s'.banks[b].openRow == Some(RowOf(k, t.packets[choice.value]))))
  {
  }

  lemma HeldByItsBank(k: Timing, s: State, b: nat)
    requires Inv(k, s) && b < |s.banks| && s.banks[b].pkt.Some?
    ensures s.banks[b].pkt.value in s.packets && BankOf(k, s.packets[s.banks[b].pkt.value]) == b
  {
    assert s.banks[b].valid;
    assert HeldBy(k, s, s.banks[b].pkt.value, b);
  }

  /** The row of a bank after a tick. */
  lemma RowAfterTick(k: Timing, s: State, b: nat)
    requires Inv(k, s) && b < |s.banks|
    ensures var s' := Tick(k, s);
            |s'.banks| == |s.banks| && s'.banks[b].openRow == RowAfter(k, s, s', b, s.banks[b].openRow)
  {
    var t, s' := BeforeService(k, s), Tick(k, s);
    var choice := Best(k, t, Queue(t)).0;
    assert s' == Service(k, t, choice);
    TickKeepsInv(k, s);
    BeforeServiceOnBank(k, s, b);
    NothingBeginsBefore(k, s);
    ServiceOnBank(k, t, choice, b);
    assert Closes(k, s, s', b) == Closes(k, s, t, b);
    if s'.banks[b].pkt.Some? {
      HeldByItsBank(k, s', b);
      hide BeforeService, Best, Service, Inv, Tick, Closes;
      if Begins(s, s', s'.banks[b].pkt.value) {
        ServiceBegins(k, s, s'.banks[b].pkt.value);
      } else if s'.banks[b] != t.banks[b] {
        ChoiceWasUnscheduled(k, s, choice.value);
      }
    } else {
      hide BeforeService, Best, Service, Inv, Tick, Closes;
    }
  }

  lemma RequestKeepsBanks(k: Timing, s: State, id: nat, p: Packet)
    requires Inv(k, s) && id !in s.packets
    ensures var s' := AddRequest(k, s, id, p).0;
            && s'.banks == s.banks && s'.active == s.active && s'.cycle == s.cycle && s'.writeMode == s.writeMode
            && s'.completed == s.completed && s'.dbusAvailable == s.dbusAvailable
            && forall x :: x in s.packets ==> x in s'.packets && s'.packets[x] == s.packets[x]
  {
  }

  lemma RowAfterStep(k: Timing, s: State, e: Event, b: nat)
    requires Inv(k, s) && Legal(s, e) && b < |s.banks|
    ensures Step(k, s, e).banks[b].openRow == RowAfter(k, s, Step(k, s, e), b, s.banks[b].openRow)
  {
    match e
    case Request(id, p) =>
      RequestKeepsBanks(k, s, id, p);
      if s.banks[b].pkt.Some? {
        HeldByItsBank(k, s, b);
      }
    case TickOnce => RowAfterTick(k, s, b);
  }

  lemma {:induction false} OpenRowIsHistory(k: Timing, s: State, b: nat, events: seq<Event>)
    requires Inv(k, s) && LegalRun(k, s, events) && b < k.mapping.TotalBanks()
    ensures Run(k, s, events).banks[b].openRow == RowHistory(k, s, b, s.banks[b].openRow, events)
    decreases |events|
  {
    assert Shaped(k, s);
    if events != [] {
      RowAfterStep(k, s, events[0], b);
      StepKeepsInv(k, s, events[0]);
      hide Inv, Step, RowAfter;
      OpenRowIsHistory(k, Step(k, s, events[0]), b, events[1..]);
    }
  }

  /** How long a bank takes. A packet that is given to its bank in some tick, after any run, is
      ready a column access later if the bank has served the same row last; if no row is open,
      the row has to be opened first; and if another row is open, that has to be closed before.
      Open is the row served last, unless a change of mode has closed it. */
  lemma ServiceTakesItsTime(k: Timing, events: seq<Event>, id: nat)
    requires LegalRun(k, Initial(k), events)
    ensures var s := Run(k, Initial(k), events);
            var s' := Tick(k, s);
            Begins(s, s', id) ==>
              var b, row := BankOf(k, s.packets[id]), RowOf(k, s.packets[id]);
              var open := StillOpen(k, s, s', b, RowHistory(k, Initial(k), b, None, events));
              && s'.banks[b].valid && s'.banks[b].pkt == Some(id)
              && s'.banks[b].readyTime ==
                 s'.cycle + if open == Some(row) then k.tCAS else if open == None then k.tRCD + k.tCAS else k.tRP + k.tRCD + k.tCAS
  {
    InitialInv(k);
    RunKeepsInv(k, Initial(k), events);
    var s := Run(k, Initial(k), events);
    hide Inv, Run, LegalRun, BankOf, RowOf;
    if Begins(s, Tick(k, s), id) {
      InvServiceTakes(k, events, s, id);
    }
  }

  lemma InvServiceTakes(k: Timing, events: seq<Event>, s: State, id: nat)
    requires LegalRun(k, Initial(k), events) && s == Run(k, Initial(k), events) && Inv(k, s) && Begins(s, Tick(k, s), id)
    ensures var s', b, row := Tick(k, s), BankOf(k, s.packets[id]), RowOf(k, s.packets[id]);
            var open := StillOpen(k, s, s', b, RowHistory(k, Initial(k), b, None, events));
            && s'.banks[b].valid && s'.banks[b].pkt == Some(id)
            && s'.banks[b].readyTime ==
               s'.cycle + if open == Some(row) then k.tCAS else if open == None then k.tRCD + k.tCAS else k.tRP + k.tRCD + k.tCAS
  {
    var t, s', b := BeforeService(k, s), Tick(k, s), BankOf(k, s.packets[id]);
    InitialInv(k);
    assert Initial(k).banks[b].openRow == None;
    OpenRowIsHistory(k, Initial(k), b, events);
    BeforeServiceOnBank(k, s, b);
    ServiceBegins(k, s, id);
    assert s'.cycle == t.cycle && s'.writeMode == t.writeMode;
    assert Closes(k, s, s', b) == Closes(k, s, t, b);
    hide BeforeService, Tick, Inv, Run, LegalRun, BankOf, RowOf, Closes, Initial;
  }
}
