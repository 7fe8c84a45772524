/** What every reachable state of a DRAM channel satisfies: packets are conserved, callbacks
    happen once, and banks and packets agree. */
module Consistency {
  import opened AddressMapping
  import opened Channel

  predicate Distinct(s: seq<nat>) {
    forall i, j :: 0 <= i < j < |s| ==> s[i] != s[j]
  }

  function Done(completed: seq<(nat, nat)>): seq<nat> {
    seq(|completed|, i requires 0 <= i < |completed| => completed[i].0)
  }

  predicate Queued(s: State, id: nat) {
    id in s.rq || id in s.wq
  }

  /** Every accepted packet is in its queue or completed, and in one place only. */
  ghost predicate Conserved(s: State) {
    match s
    case State(rq, wq, packets, _, _, _, _, _, completed) =>
      && Distinct(rq) && Distinct(wq) && Distinct(Done(completed))
      && (forall id :: id in rq ==> id in packets && !packets[id].isWrite)
      && (forall id :: id in wq ==> id in packets && packets[id].isWrite)
      && (forall id :: id in Done(completed) ==> id in packets && id !in rq && id !in wq)
      && (forall id :: id in packets ==> id in rq || id in wq || id in Done(completed))
  }

  predicate HeldBy(k: Timing, s: State, id: nat, i: nat)
    requires id in s.packets
  {
    i < |s.banks| && s.banks[i].valid && s.banks[i].pkt == Some(id) && BankOf(k, s.packets[id]) == i
  }

  /** A queued packet is scheduled exactly if a bank, its own, holds it. */
  ghost predicate BanksAgree(k: Timing, s: State) {
    match s
    case State(rq, wq, packets, banks, active, _, _, _, _) =>
      && (forall i :: 0 <= i < |banks| && banks[i].valid ==>
            && banks[i].pkt.Some? && banks[i].pkt.value in packets && Queued(s, banks[i].pkt.value)
            && packets[banks[i].pkt.value].scheduled && HeldBy(k, s, banks[i].pkt.value, i))
      && (forall i :: 0 <= i < |banks| && !banks[i].valid ==> banks[i].pkt == None)
      && (forall id :: id in packets && Queued(s, id) && packets[id].scheduled ==>
            HeldBy(k, s, id, BankOf(k, packets[id])))
      && (active.Some? ==> active.value < |banks| && banks[active.value].valid)
  }

  /** Besides the one on the data bus, banks hold packets of the current mode's queue. */
  ghost predicate ModeAgrees(s: State) {
    forall i :: 0 <= i < |s.banks| && s.banks[i].valid && s.active != Some(i) ==>
      s.banks[i].pkt.Some? && s.banks[i].pkt.value in Queue(s)
  }

  ghost predicate Inv(k: Timing, s: State) {
    Shaped(k, s) && Conserved(s) && BanksAgree(k, s) && ModeAgrees(s)
  }

  // ------------------------------------------------------------------ the queues

  lemma {:induction false} RemoveFromDistinct(queue: seq<nat>, id: nat)
    requires Distinct(queue)
    ensures Distinct(Remove(queue, id)) && id !in Remove(queue, id)
    decreases |queue|
  {
    RemoveKeepsOthers(queue, id);
    if queue != [] && queue[0] != id {
      RemoveFromDistinct(queue[1..], id);
      RemoveKeepsOthers(queue[1..], id);
      var rest := Remove(queue[1..], id);
      assert Remove(queue, id) == [queue[0]] + rest;
      assert queue[0] !in queue[1..];
      assert forall j :: 0 <= j < |rest| ==> rest[j] in queue[1..];
    }
  }

  /** A packet on the data bus that is done leaves its queue, and nothing else does. */
  lemma FinishKeepsInv(k: Timing, s: State)
    requires Inv(k, s)
    ensures Inv(k, Finish(k, s))
    ensures CanFinish(s) ==> |Finish(k, s).rq| + |Finish(k, s).wq| == |s.rq| + |s.wq| - 1
    ensures !CanFinish(s) ==> Finish(k, s) == s
  {
    FinishIsOk(k, s);
    if CanFinish(s) {
      var b := s.active.value;
      var id := s.banks[b].pkt.value;
      var t := Finish(k, s);
      RemoveKeepsOthers(s.rq, id);
      RemoveKeepsOthers(s.wq, id);
      RemoveFromDistinct(s.rq, id);
      RemoveFromDistinct(s.wq, id);
      assert Done(t.completed) == Done(s.completed) + [id];
      assert forall x :: x in Done(t.completed) <==> x in Done(s.completed) || x == id;
      assert forall x :: x in t.rq <==> x in s.rq && x != id;
      assert forall x :: x in t.wq <==> x in s.wq && x != id;
      assert Conserved(t);
      FinishKeepsBanks(k, s, id);
    }
  }

  lemma FinishKeepsBanks(k: Timing, s: State, id: nat)
    requires Inv(k, s) && CanFinish(s) && s.banks[s.active.value].pkt == Some(id)
    requires var t := Finish(k, s);
             && (forall x :: x in t.rq <==> x in s.rq && x != id)
             && (forall x :: x in t.wq <==> x in s.wq && x != id)
    ensures BanksAgree(k, Finish(k, s)) && ModeAgrees(Finish(k, s))
  {
    var t := Finish(k, s);
    forall i | 0 <= i < |t.banks| && t.banks[i].valid
      ensures t.banks[i].pkt.Some? && Queued(t, t.banks[i].pkt.value)
      ensures t.packets[t.banks[i].pkt.value].scheduled && HeldBy(k, t, t.banks[i].pkt.value, i)
    {
      assert s.banks[i].valid && HeldBy(k, s, s.banks[i].pkt.value, i);
      assert HeldBy(k, s, id, s.active.value);
    }
    forall x | x in t.packets && Queued(t, x) && t.packets[x].scheduled
      ensures HeldBy(k, t, x, BankOf(k, t.packets[x]))
    {
      assert HeldBy(k, s, x, BankOf(k, s.packets[x]));
    }
  }

  // ------------------------------------------------------------------ the modes

  /** Who gives the packet back is its own bank. */
  lemma GivenBackByOwnBank(k: Timing, s: State, id: nat)
    requires Inv(k, s) && id in s.packets
    ensures id in GivenBack(s, |s.banks|) <==>
            HeldBy(k, s, id, BankOf(k, s.packets[id])) && s.active != Some(BankOf(k, s.packets[id]))
  {
    if id in GivenBack(s, |s.banks|) {
      var i :| 0 <= i < |s.banks| && Resets(s, i) && s.banks[i].pkt.value == id;
      assert HeldBy(k, s, id, i);
    } else if HeldBy(k, s, id, BankOf(k, s.packets[id])) && s.active != Some(BankOf(k, s.packets[id])) {
      assert Resets(s, BankOf(k, s.packets[id]));
    }
  }

  lemma SwapKeepsInv(k: Timing, s: State)
    requires Inv(k, s)
    ensures Inv(k, Swap(k, s))
  {
    SwapIsOk(k, s);
    if ShouldSwitch(k, s) {
      SwapKeepsBanks(k, s);
    }
  }

  lemma SwapKeepsBanks(k: Timing, s: State)
    requires Inv(k, s) && ShouldSwitch(k, s)
    ensures BanksAgree(k, Swap(k, s)) && ModeAgrees(Swap(k, s))
  {
    var t := Swap(k, s);
    forall i | 0 <= i < |t.banks| && t.banks[i].valid
      ensures s.active == Some(i) && t.banks[i] == s.banks[i]
      ensures t.packets[t.banks[i].pkt.value].scheduled && HeldBy(k, t, t.banks[i].pkt.value, i)
    {
      assert HeldBy(k, s, s.banks[i].pkt.value, i);
      GivenBackByOwnBank(k, s, s.banks[i].pkt.value);
    }
    forall id | id in t.packets && Queued(t, id) && t.packets[id].scheduled
      ensures HeldBy(k, t, id, BankOf(k, t.packets[id]))
    {
      GivenBackByOwnBank(k, s, id);
      assert HeldBy(k, s, id, BankOf(k, s.packets[id]));
    }
  }

  // ------------------------------------------------------------------ the data bus

  lemma PopulateKeepsInv(k: Timing, s: State)
    requires Inv(k, s)
    ensures Inv(k, Populate(k, s))
  {
    PopulateIsOk(k, s);
    var t := Populate(k, s);
    assert forall i :: 0 <= i < |s.banks| ==> t.banks[i] == s.banks[i].(readyTime := t.banks[i].readyTime);
    assert forall id :: Queued(t, id) <==> Queued(s, id);
    forall id, i: nat | id in s.packets
      ensures HeldBy(k, t, id, i) == HeldBy(k, s, id, i)
    {
    }
  }

  // ------------------------------------------------------------------ service

  lemma ServiceKeepsInv(k: Timing, s: State)
    requires Inv(k, s)
    ensures Inv(k, Service(k, s, Best(k, s, Queue(s)).0))
  {
    var choice := Best(k, s, Queue(s)).0;
    ServiceIsOk(k, s, choice);
    if choice.Some? {
      ServiceKeepsBanks(k, s, choice.value);
    }
  }

  lemma ServiceKeepsBanks(k: Timing, s: State, id: nat)
    requires Inv(k, s) && id in Queue(s) && Schedulable(k, s, id)
    ensures var t := Service(k, s, Some(id)); Conserved(t) && BanksAgree(k, t) && ModeAgrees(t)
  {
    var t, b := Service(k, s, Some(id)), BankOf(k, s.packets[id]);
    if t != s {
      forall i | 0 <= i < |t.banks| && t.banks[i].valid
        ensures t.banks[i].pkt.Some? && t.banks[i].pkt.value in t.packets && Queued(t, t.banks[i].pkt.value)
        ensures t.packets[t.banks[i].pkt.value].scheduled && HeldBy(k, t, t.banks[i].pkt.value, i)
      {
        if i != b {
          assert HeldBy(k, s, s.banks[i].pkt.value, i);
        }
      }
      forall x | x in t.packets && Queued(t, x) && t.packets[x].scheduled
        ensures HeldBy(k, t, x, BankOf(k, t.packets[x]))
      {
        if x != id {
          assert HeldBy(k, s, x, BankOf(k, s.packets[x]));
        }
      }
    }
  }

  // ------------------------------------------------------------------ runs

  lemma BeforeServiceKeepsInv(k: Timing, s: State)
    requires Inv(k, s)
    ensures Inv(k, BeforeService(k, s))
  {
    hide Shaped, Conserved, BanksAgree, ModeAgrees, Finish, Swap, Populate;
    var now := s.(cycle := s.cycle + 1);
    CycleKeepsInv(k, s);
    FinishKeepsInv(k, now);
    SwapKeepsInv(k, Finish(k, now));
    PopulateKeepsInv(k, Swap(k, Finish(k, now)));
  }

  lemma CycleKeepsInv(k: Timing, s: State)
    requires Inv(k, s)
    ensures Inv(k, s.(cycle := s.cycle + 1))
  {
    var now := s.(cycle := s.cycle + 1);
    forall id, i: nat | id in s.packets
      ensures HeldBy(k, now, id, i) == HeldBy(k, s, id, i)
    {
    }
    assert forall id :: Queued(now, id) <==> Queued(s, id);
  }

  lemma TickKeepsInv(k: Timing, s: State)
    requires Inv(k, s)
    ensures Inv(k, Tick(k, s))
  {
    hide Shaped, Conserved, BanksAgree, ModeAgrees, BeforeService, Service, Best;
    BeforeServiceKeepsInv(k, s);
    ServiceKeepsInv(k, BeforeService(k, s));
  }

  /** A request with a packet that the channel has not seen. */
  lemma AddKeepsInv(k: Timing, s: State, id: nat, p: Packet)
    requires Inv(k, s) && id !in s.packets && !p.scheduled
    ensures Inv(k, AddRequest(k, s, id, p).0)
  {
    var t := AddRequest(k, s, id, p).0;
    if t != s {
      assert forall x :: Queued(t, x) <==> Queued(s, x) || x == id;
      assert Done(t.completed) == Done(s.completed);
      assert forall x :: x in s.packets ==> x in t.packets && t.packets[x] == s.packets[x];
      forall x, i: nat | x in s.packets
        ensures HeldBy(k, t, x, i) == HeldBy(k, s, x, i)
      {
      }
      assert BanksAgree(k, t);
      assert ModeAgrees(t);
      assert Conserved(t);
    }
  }

  datatype Event = Request(id: nat, packet: Packet) | TickOnce

  /** Callers hand in new packets, not marked as scheduled. */
  predicate Legal(s: State, e: Event) {
    e.Request? ==> e.id !in s.packets && !e.packet.scheduled
  }

  function Step(k: Timing, s: State, e: Event): (r: State)
    requires Shaped(k, s)
    ensures Shaped(k, r)
  {
    match e
    case Request(id, p) => AddRequest(k, s, id, p).0
    case TickOnce => Tick(k, s)
  }

  predicate LegalRun(k: Timing, s: State, events: seq<Event>)
    requires Shaped(k, s)
    decreases |events|
  {
    events == [] || (Legal(s, events[0]) && LegalRun(k, Step(k, s, events[0]), events[1..]))
  }

  function Run(k: Timing, s: State, events: seq<Event>): (r: State)
    requires Shaped(k, s)
    ensures Shaped(k, r)
    decreases |events|
  {
    if events == [] then s else Run(k, Step(k, s, events[0]), events[1..])
  }

  lemma StepKeepsInv(k: Timing, s: State, e: Event)
    requires Inv(k, s) && Legal(s, e)
    ensures Inv(k, Step(k, s, e))
  {
    hide Conserved, BanksAgree, ModeAgrees;
    match e
    case Request(id, p) => AddKeepsInv(k, s, id, p);
    case TickOnce => TickKeepsInv(k, s);
  }

  lemma {:induction false} RunKeepsInv(k: Timing, s: State, events: seq<Event>)
    requires Inv(k, s) && LegalRun(k, s, events)
    ensures Inv(k, Run(k, s, events))
    decreases |events|
  {
    hide Conserved, BanksAgree, ModeAgrees, Step;
    if events != [] {
      StepKeepsInv(k, s, events[0]);
      RunKeepsInv(k, Step(k, s, events[0]), events[1..]);
    }
  }

  lemma InitialInv(k: Timing)
    ensures Inv(k, Initial(k))
  {
  }

  /** Exactly once: in every reachable state an accepted packet is either queued or
      completed, not both, its callback has been called at most once, and nothing else is
      queued or completed. */
  lemma CallbacksHappenOnce(k: Timing, events: seq<Event>, id: nat)
    requires LegalRun(k, Initial(k), events)
    ensures var s := Run(k, Initial(k), events);
            && multiset(s.rq)[id] + multiset(s.wq)[id] + multiset(Done(s.completed))[id]
               == (if id in s.packets then 1 else 0)
  {
    InitialInv(k);
    RunKeepsInv(k, Initial(k), events);
    var s := Run(k, Initial(k), events);
    CountInDistinct(s.rq, id);
    CountInDistinct(s.wq, id);
    CountInDistinct(Done(s.completed), id);
  }

  lemma {:induction false} CountInDistinct(s: seq<nat>, id: nat)
    requires Distinct(s)
    ensures multiset(s)[id] == if id in s then 1 else 0
    decreases |s|
  {
    if s != [] {
      var n := |s| - 1;
      CountInDistinct(s[..n], id);
      assert s == s[..n] + [s[n]];
    }
  }

  /** Bank consistency: a queued packet is scheduled if and only if some bank holds it, which
      is then the bank of its address and no other; and every busy bank but the one on the
      data bus works for the current mode. */
  lemma BanksAreConsistent(k: Timing, events: seq<Event>, id: nat, i: nat)
    requires LegalRun(k, Initial(k), events)
    ensures var s := Run(k, Initial(k), events);
            && (id in s.packets && Queued(s, id) && i < |s.banks| ==>
                  ((s.banks[i].valid && s.banks[i].pkt == Some(id))
                   <==> (s.packets[id].scheduled && BankOf(k, s.packets[id]) == i)))
            && (i < |s.banks| && s.banks[i].valid && s.active != Some(i) ==>
                  s.banks[i].pkt.Some? && s.banks[i].pkt.value in Queue(s))
  {
    InitialInv(k);
    RunKeepsInv(k, Initial(k), events);
    var s := Run(k, Initial(k), events);
    if id in s.packets && Queued(s, id) && i < |s.banks| && s.banks[i].valid && s.banks[i].pkt == Some(id) {
      assert HeldBy(k, s, id, i);
    }
    if id in s.packets && Queued(s, id) && s.packets[id].scheduled {
      assert HeldBy(k, s, id, BankOf(k, s.packets[id]));
    }
  }
}
