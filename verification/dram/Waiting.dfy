/** The queues of the DRAM channel (internal/capabilities/memory/dram/dram_channel.go,
    schedule.go), stated on runs: who waits, in which order and since when, and who is served
    next. */
module Waiting {
  import opened AddressMapping
  import opened Channel
  import opened Consistency
  import opened ServiceTimes
  import opened DataBus

  // ------------------------------------------------ who begins

  lemma PacketsOfQueue(k: Timing, s: State)
    requires Shaped(k, s)
    ensures forall id :: id in Queue(s) ==> id in s.packets
  {
  }

  /** At most one packet begins in a tick: the one that has waited longest, if it is due. */
  lemma LongestWaitingBegins(k: Timing, events: seq<Event>, id: nat)
    requires LegalRun(k, Initial(k), events)
    ensures var s := Run(k, Initial(k), events);
            var t := BeforeService(k, s);
            Begins(s, Tick(k, s), id) <==>
              exists i :: 0 <= i < |Queue(t)| && Queue(t)[i] == id && id in t.packets
                          && t.packets[id].readyTime <= t.cycle && LongestWaiting(k, t, Queue(t), i)
  {
    InitialInv(k);
    RunKeepsInv(k, Initial(k), events);
    var s := Run(k, Initial(k), events);
    var now, finished, swapped := Phases(k, s);
    var t := BeforeService(k, s);
    PacketsOfQueue(k, t);
    ChoiceWaitedLongest(k, t, Queue(t), id);
    hide Inv, Run, LegalRun, Initial, BeforeService, Finish, Swap, Populate, LongestWaiting, Shaped;
    ChosenBegins(k, s, id);
  }

  lemma ChosenBegins(k: Timing, s: State, id: nat)
    requires Inv(k, s)
    ensures var t := BeforeService(k, s);
            Begins(s, Tick(k, s), id) <==>
              Best(k, t, Queue(t)).0 == Some(id) && id in t.packets && t.packets[id].readyTime <= t.cycle
  {
    var t := BeforeService(k, s);
    var choice := Best(k, t, Queue(t)).0;
    assert Tick(k, s) == Service(k, t, choice);
    NothingBeginsBefore(k, s);
    if choice.Some? {
      ChoiceWasUnscheduled(k, s, choice.value);
    }
    hide Inv, BeforeService, Best, Tick;
  }

  // ------------------------------------------------ who waits

  function QueueOf(s: State, isWrite: bool): seq<nat> {
    if isWrite then s.wq else s.rq
  }

  /** A request of the kind that finds room in its queue. */
  predicate Joins(k: Timing, s: State, e: Event, isWrite: bool) {
    e.Request? && e.packet.isWrite == isWrite && |QueueOf(s, isWrite)| < if isWrite then k.wqSize else k.rqSize
  }

  function Joining(k: Timing, s: State, e: Event, isWrite: bool): seq<nat> {
    if Joins(k, s, e, isWrite) then [e.id] else []
  }

  /** The packets of one kind that a run accepts, in the order in which they come. */
  function AcceptedIn(k: Timing, s: State, events: seq<Event>, isWrite: bool): seq<nat>
    requires Shaped(k, s)
    decreases |events|
  {
    if events == [] then []
    else Joining(k, s, events[0], isWrite) + AcceptedIn(k, Step(k, s, events[0]), events[1..], isWrite)
  }

  /** Those of them that have not been called back. */
  function Pending(accepted: seq<nat>, done: seq<nat>): seq<nat> {
    if accepted == [] then []
    else
      var n := |accepted| - 1;
      Pending(accepted[..n], done) + if accepted[n] in done then [] else [accepted[n]]
  }

  lemma {:induction false} PendingAfterOne(accepted: seq<nat>, done: seq<nat>, x: nat)
    requires Distinct(accepted) && x !in done
    ensures Pending(accepted, done + [x]) == Remove(Pending(accepted, done), x)
    ensures forall y :: y in Pending(accepted, done) <==> y in accepted && y !in done
    decreases |accepted|
  {
    if accepted != [] {
      var n := |accepted| - 1;
      PendingAfterOne(accepted[..n], done, x);
      assert accepted == accepted[..n] + [accepted[n]];
      var before := Pending(accepted[..n], done);
      assert before + [] == before && Remove(before, x) + [] == Remove(before, x);
      if accepted[n] !in done {
        RemoveFromLonger(before, accepted[n], x);
        if x !in before {
          RemoveNothing(before, x);
        }
      }
    }
  }

  lemma {:induction false} RemoveFromLonger(queue: seq<nat>, last: nat, x: nat)
    requires last !in queue
    ensures Remove(queue + [last], x) == if x in queue then Remove(queue, x) + [last] else if x == last then queue else queue + [last]
    decreases |queue|
  {
    var longer := queue + [last];
    if queue == [] {
      assert longer[1..] == [];
    } else {
      assert longer[0] == queue[0] && longer[1..] == queue[1..] + [last];
      assert queue == [queue[0]] + queue[1..];
      if queue[0] != x {
        RemoveFromLonger(queue[1..], last, x);
        assert Remove(longer, x) == [queue[0]] + Remove(longer[1..], x);
        assert x in queue <==> x in queue[1..];
        assert [queue[0]] + (Remove(queue[1..], x) + [last]) == ([queue[0]] + Remove(queue[1..], x)) + [last];
      } else {
        assert Remove(longer, x) == longer[1..] && Remove(queue, x) == queue[1..];
      }
    }
  }

  lemma PendingOneMore(accepted: seq<nat>, done: seq<nat>, id: nat)
    requires id !in done
    ensures Pending(accepted + [id], done) == Pending(accepted, done) + [id]
  {
    assert (accepted + [id])[..|accepted|] == accepted;
  }

  /** The queue holds what is pending of the ids. */
  ghost predicate HoldsPending(s: State, ids: seq<nat>, isWrite: bool) {
    && Distinct(ids) && (forall id :: id in ids ==> id in s.packets && s.packets[id].isWrite == isWrite)
    && QueueOf(s, isWrite) == Pending(ids, Done(s.completed))
  }

  /** What a request does to the queue of one kind. */
  lemma RequestOnQueue(k: Timing, s: State, id: nat, p: Packet, isWrite: bool)
    requires Inv(k, s) && id !in s.packets
    ensures var s' := AddRequest(k, s, id, p).0;
            && s'.completed == s.completed && id !in Done(s.completed)
            && QueueOf(s', isWrite) == QueueOf(s, isWrite) + Joining(k, s, Request(id, p), isWrite)
            && (forall x :: x in s.packets ==> x in s'.packets && s'.packets[x] == s.packets[x])
            && (Joins(k, s, Request(id, p), isWrite) ==> id in s'.packets && s'.packets[id].isWrite == isWrite)
  {
    assert s.rq + [] == s.rq && s.wq + [] == s.wq;
  }

  lemma OneMoreHolds(s: State, s': State, ids: seq<nat>, id: nat, isWrite: bool)
    requires HoldsPending(s, ids, isWrite) && id !in s.packets && id !in Done(s.completed) && s'.completed == s.completed
    requires QueueOf(s', isWrite) == QueueOf(s, isWrite) + [id] && id in s'.packets && s'.packets[id].isWrite == isWrite
    requires forall x :: x in s.packets ==> x in s'.packets && s'.packets[x] == s.packets[x]
    ensures HoldsPending(s', ids + [id], isWrite)
  {
    PendingOneMore(ids, Done(s.completed), id);
    hide Pending, Done, QueueOf;
  }

  lemma RequestJoins(k: Timing, s: State, id: nat, p: Packet, ids: seq<nat>, isWrite: bool)
    requires Inv(k, s) && id !in s.packets && HoldsPending(s, ids, isWrite)
    ensures HoldsPending(AddRequest(k, s, id, p).0, ids + Joining(k, s, Request(id, p), isWrite), isWrite)
  {
    RequestOnQueue(k, s, id, p, isWrite);
    hide Inv, AddRequest, Done, Pending, QueueOf;
    if Joins(k, s, Request(id, p), isWrite) {
      OneMoreHolds(s, AddRequest(k, s, id, p).0, ids, id, isWrite);
    } else {
      assert ids + [] == ids && QueueOf(s, isWrite) + [] == QueueOf(s, isWrite);
    }
  }

  lemma KindsInService(k: Timing, t: State, choice: Option<nat>)
    requires |t.banks| == k.mapping.TotalBanks() && (choice.Some? ==> choice.value in t.packets)
    ensures var s' := Service(k, t, choice);
            s'.packets.Keys == t.packets.Keys && forall id :: id in t.packets ==> s'.packets[id].isWrite == t.packets[id].isWrite
  {
  }

  lemma KindsStay(k: Timing, s: State)
    requires Inv(k, s)
    ensures var s' := Tick(k, s);
            s'.packets.Keys == s.packets.Keys && forall id :: id in s.packets ==> s'.packets[id].isWrite == s.packets[id].isWrite
  {
    NothingBeginsBefore(k, s);
    var t := BeforeService(k, s);
    var choice := Best(k, t, Queue(t)).0;
    assert Tick(k, s) == Service(k, t, choice);
    KindsInService(k, t, choice);
    hide Inv, BeforeService, Best, Tick, Service;
  }

  /** A queue loses at most the packet that is called back. */
  ghost predicate LosesOne(s: State, t: State, isWrite: bool) {
    || (QueueOf(t, isWrite) == QueueOf(s, isWrite) && t.completed == s.completed)
    || exists x :: Done(t.completed) == Done(s.completed) + [x] && x !in Done(s.completed)
                   && QueueOf(t, isWrite) == Remove(QueueOf(s, isWrite), x)
  }

  lemma {:induction false} RemoveNothing(queue: seq<nat>, x: nat)
    requires x !in queue
    ensures Remove(queue, x) == queue
    decreases |queue|
  {
    if queue != [] {
      RemoveNothing(queue[1..], x);
      assert [queue[0]] + queue[1..] == queue;
    }
  }

  lemma FinishLosesOne(k: Timing, s: State, isWrite: bool)
    requires Inv(k, s)
    ensures LosesOne(s, Finish(k, s), isWrite)
  {
    if CanFinish(s) {
      var x := s.banks[s.active.value].pkt.value;
      var t := Finish(k, s);
      assert Done(t.completed) == Done(s.completed) + [x];
      assert Queued(s, x) && x !in Done(s.completed);
      if x in s.rq {
        RemoveNothing(s.wq, x);
      } else {
        RemoveNothing(s.rq, x);
      }
    }
  }

  lemma TickLosesOne(k: Timing, s: State, isWrite: bool)
    requires Inv(k, s)
    ensures LosesOne(s, Tick(k, s), isWrite)
  {
    hide Inv, Shaped, Tick, BeforeBus, BeforeService, Finish, Swap, Populate;
    var now, finished, swapped := Phases(k, s);
    ServiceIsLocal(k, s);
    SwapDecides(k, finished);
    SwapAndPopulateFrame(k, finished);
    OthersKeepTheMode(k, swapped);
    FinishLosesOne(k, now, isWrite);
  }

  lemma TickPends(k: Timing, s: State, ids: seq<nat>, isWrite: bool)
    requires Inv(k, s) && HoldsPending(s, ids, isWrite)
    ensures HoldsPending(Tick(k, s), ids, isWrite)
  {
    KindsStay(k, s);
    TickLosesOne(k, s, isWrite);
    var s' := Tick(k, s);
    hide Inv, Tick, Done, QueueOf;
    if x :| Done(s'.completed) == Done(s.completed) + [x] && x !in Done(s.completed)
            && QueueOf(s', isWrite) == Remove(QueueOf(s, isWrite), x) {
      PendingAfterOne(ids, Done(s.completed), x);
    }
  }

  lemma AcceptedSplits(k: Timing, s: State, events: seq<Event>, ids: seq<nat>, isWrite: bool)
    requires Shaped(k, s) && events != []
    ensures (ids + Joining(k, s, events[0], isWrite)) + AcceptedIn(k, Step(k, s, events[0]), events[1..], isWrite)
            == ids + AcceptedIn(k, s, events, isWrite)
  {
    hide Step, Joining, Shaped;
  }

  lemma {:induction false} RunPends(k: Timing, s: State, events: seq<Event>, ids: seq<nat>, isWrite: bool)
    requires Shaped(k, s) && Inv(k, s) && LegalRun(k, s, events) && HoldsPending(s, ids, isWrite)
    ensures HoldsPending(Run(k, s, events), ids + AcceptedIn(k, s, events, isWrite), isWrite)
    decreases |events|
  {
    if events == [] {
      assert ids + [] == ids;
    } else {
      hide Inv, Step, HoldsPending, Shaped, Joining, AcceptedIn;
      var e := events[0];
      AcceptedSplits(k, s, events, ids, isWrite);
      StepPends(k, s, e, ids, isWrite);
      StepKeepsInv(k, s, e);
      RunPends(k, Step(k, s, e), events[1..], ids + Joining(k, s, e, isWrite), isWrite);
    }
  }

  lemma StepPends(k: Timing, s: State, e: Event, ids: seq<nat>, isWrite: bool)
    requires Inv(k, s) && Legal(s, e) && HoldsPending(s, ids, isWrite)
    ensures HoldsPending(Step(k, s, e), ids + Joining(k, s, e, isWrite), isWrite)
  {
    match e
    case Request(id, p) => RequestJoins(k, s, id, p, ids, isWrite);
    case TickOnce =>
      TickPends(k, s, ids, isWrite);
      assert ids + [] == ids;
  }

  /** In every run a queue holds exactly the packets of its kind that were accepted and have
      not been called back, in the order in which they came. */
  lemma QueuesKeepTheirOrder(k: Timing, events: seq<Event>, isWrite: bool)
    requires LegalRun(k, Initial(k), events)
    ensures var s := Run(k, Initial(k), events);
            QueueOf(s, isWrite) == Pending(AcceptedIn(k, Initial(k), events, isWrite), Done(s.completed))
  {
    InitialInv(k);
    NothingIsPending(k, isWrite);
    hide Inv, Run, AcceptedIn, LegalRun, Initial, Shaped;
    RunPends(k, Initial(k), events, [], isWrite);
    assert [] + AcceptedIn(k, Initial(k), events, isWrite) == AcceptedIn(k, Initial(k), events, isWrite);
  }

  lemma NothingIsPending(k: Timing, isWrite: bool)
    ensures HoldsPending(Initial(k), [], isWrite)
  {
  }

  /** The answer to a request tells whether its packet is queued: it is if its queue had room. */
  lemma AnswerTellsTheTruth(k: Timing, events: seq<Event>, id: nat, p: Packet)
    requires LegalRun(k, Initial(k), events) && id !in Run(k, Initial(k), events).packets
    ensures var s := Run(k, Initial(k), events);
            var (s', accepted) := AddRequest(k, s, id, p);
            && (accepted <==> Queued(s', id)) && (accepted <==> Joins(k, s, Request(id, p), p.isWrite))
            && (!accepted ==> s' == s)
  {
    InitialInv(k);
    RunKeepsInv(k, Initial(k), events);
    hide Initial, Run, LegalRun;
  }

  // ------------------------------------------------ how long they have waited

  lemma UnscheduledInSwap(k: Timing, s: State, id: nat)
    requires Inv(k, s) && id in s.packets && !s.packets[id].scheduled
    ensures id in Swap(k, s).packets && Swap(k, s).packets[id] == s.packets[id]
  {
    GivenBackByOwnBank(k, s, id);
  }

  lemma ServedPacket(k: Timing, t: State, choice: Option<nat>, id: nat)
    requires |t.banks| == k.mapping.TotalBanks() && (choice.Some? ==> choice.value in t.packets) && id in t.packets
    ensures var s' := Service(k, t, choice);
            id in s'.packets && (s'.packets[id] == t.packets[id] || s'.packets[id] == t.packets[id].(scheduled := true))
  {
  }

  /** The time a packet waits from is the cycle it came in, or the later one it came with; and
      it stays so until the packet is given back. */
  lemma WaitingIsFromArrival(k: Timing, events: seq<Event>, e: Event, id: nat)
    requires LegalRun(k, Initial(k), events) && Legal(Run(k, Initial(k), events), e)
    ensures var s := Run(k, Initial(k), events);
            var s' := Step(k, s, e);
            && (id in s.packets && !s.packets[id].scheduled ==>
                  id in s'.packets && s'.packets[id] == s.packets[id].(scheduled := s'.packets[id].scheduled))
            && (id !in s.packets && id in s'.packets ==>
                  && e.Request? && e.id == id
                  && s'.packets[id] == e.packet.(readyTime := if e.packet.readyTime == 0 then s.cycle else e.packet.readyTime))
  {
    InitialInv(k);
    RunKeepsInv(k, Initial(k), events);
    var s := Run(k, Initial(k), events);
    hide Run, LegalRun, Initial;
    if e.TickOnce? {
      KindsStay(k, s);
      if id in s.packets && !s.packets[id].scheduled {
        WaitsInTick(k, s, id);
      }
    }
  }

  lemma WaitsInTick(k: Timing, s: State, id: nat)
    requires Inv(k, s) && id in s.packets && !s.packets[id].scheduled
    ensures var s' := Tick(k, s);
            id in s'.packets && s'.packets[id] == s.packets[id].(scheduled := s'.packets[id].scheduled)
  {
    var now, finished, swapped := Phases(k, s);
    PacketsInFinish(k, now);
    UnscheduledInSwap(k, finished, id);
    PacketsInPopulate(k, swapped);
    var t := BeforeService(k, s);
    var choice := Best(k, t, Queue(t)).0;
    assert Tick(k, s) == Service(k, t, choice);
    ServedPacket(k, t, choice, id);
    hide Inv, BeforeService, Best, Tick, Service, Finish, Swap, Populate;
  }
}
