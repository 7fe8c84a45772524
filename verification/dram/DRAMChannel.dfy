/** DRAMChannel as the code has it: queues and bank records updated in place. Each step of
    operate is proved to be the function of module Channel. */
module DRAMChannel {
  import opened AddressMapping
  import opened Channel

  class DRAMChannel {
    const config: Timing
    const bankRequest: array<Bank>
    var RQ: seq<nat>
    var WQ: seq<nat>
    /** The packet records that the queues and the banks point to. */
    var packets: map<nat, Packet>
    var activeRequest: Option<nat>
    var currentCycle: nat
    var writeMode: bool
    var dbusAvailable: nat
    /** The callbacks made. */
    var completed: seq<(nat, nat)>

    function Now(): State
      reads this, bankRequest
    {
      State(RQ, WQ, packets, bankRequest[..], activeRequest, currentCycle, writeMode, dbusAvailable, completed)
    }

    ghost predicate Valid()
      reads this, bankRequest
    {
      Shaped(config, Now())
    }

    constructor (config: Timing)
      ensures Valid() && fresh(bankRequest) && this.config == config && Now() == Initial(config)
    {
      this.config := config;
      bankRequest := new Bank[config.mapping.TotalBanks()](_ => IDLE);
      RQ, WQ, packets, activeRequest := [], [], map[], None;
      currentCycle, writeMode, dbusAvailable, completed := 0, false, 0, [];
    }

    method AddRequest(id: nat, pkt: Packet) returns (ok: bool)
      requires Valid()
      modifies this
      ensures (Now(), ok) == Channel.AddRequest(config, old(Now()), id, pkt)
    {
      if pkt.isWrite {
        if |WQ| >= config.wqSize {
          return false;
        }
        packets := packets[id := if pkt.readyTime == 0 then pkt.(readyTime := currentCycle) else pkt];
        WQ := WQ + [id];
        return true;
      }
      if |RQ| >= config.rqSize {
        return false;
      }
      packets := packets[id := if pkt.readyTime == 0 then pkt.(readyTime := currentCycle) else pkt];
      RQ := RQ + [id];
      return true;
    }

    method Tick()
      requires Valid()
      modifies this, bankRequest
      ensures Valid() && Now() == Channel.Tick(config, old(Now()))
    {
      hide Channel.Finish, Channel.Swap, Channel.Populate, Channel.Best, Channel.Service, Channel.Tick, Shaped;
      ghost var before := Now();
      currentCycle := currentCycle + 1;
      CycleIsOk(config, before);
      FinishIsOk(config, Now());
      FinishDBusRequest();
      ghost var finished := Now();
      SwapIsOk(config, finished);
      SwapWriteMode();
      ghost var swapped := Now();
      PopulateIsOk(config, swapped);
      PopulateDBus();
      ghost var populated := Now();
      var pkt := SchedulePacket();
      ServiceIsOk(config, populated, pkt);
      ServicePacket(pkt);
      TickInParts(config, before, finished, swapped, populated, pkt);
    }

    method FinishDBusRequest()
      requires Valid()
      modifies this, bankRequest
      ensures Now() == Finish(config, old(Now()))
    {
      if activeRequest == None {
        return;
      }
      var b := activeRequest.value;
      if bankRequest[b].readyTime > currentCycle {
        return;
      }
      var id := bankRequest[b].pkt.value;
      completed := completed + [(id, currentCycle)];
      bankRequest[b] := bankRequest[b].(valid := false, pkt := None);
      activeRequest := None;
      RemoveFromQueue(id);
    }

    method RemoveFromQueue(id: nat)
      modifies `RQ, `WQ
      ensures RQ == Remove(old(RQ), id)
      ensures WQ == if id in old(RQ) then old(WQ) else Remove(old(WQ), id)
    {
      for i := 0 to |RQ|
        invariant RQ == old(RQ) && WQ == old(WQ) && id !in RQ[..i]
      {
        if RQ[i] == id {
          RemoveAt(RQ, i, id);
          RQ := RQ[..i] + RQ[i + 1..];
          return;
        }
      }
      assert RQ[..|RQ|] == RQ;
      RemoveAbsent(RQ, id);
      for i := 0 to |WQ|
        invariant RQ == old(RQ) && WQ == old(WQ) && id !in WQ[..i]
      {
        if WQ[i] == id {
          RemoveAt(WQ, i, id);
          WQ := WQ[..i] + WQ[i + 1..];
          return;
        }
      }
      assert WQ[..|WQ|] == WQ;
      RemoveAbsent(WQ, id);
    }

    method SwapWriteMode()
      requires Valid()
      modifies this, bankRequest
      ensures Now() == Swap(config, old(Now()))
    {
      var wqHighWM := config.wqSize * 7 / 8;
      var wqLowWM := config.wqSize * 6 / 8;
      var shouldSwitch := false;
      if !writeMode {
        if |WQ| >= wqHighWM || (|RQ| == 0 && |WQ| > 0) {
          shouldSwitch := true;
        }
      } else {
        if |WQ| == 0 || (|RQ| > 0 && |WQ| < wqLowWM) {
          shouldSwitch := true;
        }
      }
      if !shouldSwitch {
        return;
      }
      writeMode := !writeMode;
      ResetBanks();
      if activeRequest.Some? {
        dbusAvailable := bankRequest[activeRequest.value].readyTime + config.tRAS;
      } else {
        dbusAvailable := currentCycle + config.tRAS;
      }
    }

    /** The loop that gives scheduled packets back, except the one on the data bus. */
    method ResetBanks()
      requires Valid()
      modifies `packets, bankRequest
      ensures bankRequest[..] == seq(bankRequest.Length, i requires 0 <= i < bankRequest.Length => ResetBank(config, old(Now()), i))
      ensures packets == ResetPackets(old(Now()), GivenBack(old(Now()), bankRequest.Length))
    {
      ghost var s := Now();
      assert packets == ResetPackets(s, GivenBack(s, 0));
      for i := 0 to bankRequest.Length
        invariant forall j :: 0 <= j < i ==> bankRequest[j] == ResetBank(config, s, j)
        invariant forall j :: i <= j < bankRequest.Length ==> bankRequest[j] == s.banks[j]
        invariant packets == ResetPackets(s, GivenBack(s, i))
      {
        ResetOneMore(s, i);
        if activeRequest != Some(i) && bankRequest[i].valid {
          var b := bankRequest[i];
          if !(b.readyTime >= currentCycle + config.tCAS) {
            b := b.(openRow := None);
          }
          b := b.(valid := false);
          if b.pkt.Some? {
            packets := packets[b.pkt.value := packets[b.pkt.value].(scheduled := false, readyTime := currentCycle)];
          }
          bankRequest[i] := b.(pkt := None);
        }
      }
    }

    method PopulateDBus()
      requires Valid()
      modifies this, bankRequest
      ensures Now() == Populate(config, old(Now()))
    {
      if activeRequest != None {
        return;
      }
      if dbusAvailable > currentCycle {
        return;
      }
      var nextRequest: Option<nat> := None;
      for i := 0 to bankRequest.Length
        invariant nextRequest == NextRequest(bankRequest[..], currentCycle, i)
      {
        if bankRequest[i].valid {
          if bankRequest[i].readyTime <= currentCycle
             && (nextRequest == None || bankRequest[i].readyTime < bankRequest[nextRequest.value].readyTime) {
            nextRequest := Some(i);
          }
        }
      }
      if nextRequest == None {
        return;
      }
      var b := nextRequest.value;
      activeRequest := nextRequest;
      bankRequest[b] := bankRequest[b].(readyTime := currentCycle + BURST);
      dbusAvailable := currentCycle + BURST;
    }

    method SchedulePacket() returns (bestPkt: Option<nat>)
      requires Valid()
      ensures bestPkt == Best(config, Now(), Queue(Now())).0
    {
      hide Channel.BankOf, Channel.RowOf;
      var queue := if writeMode then WQ else RQ;
      bestPkt := None;
      var bestPriority := -1;
      for i := 0 to |queue|
        invariant (bestPkt, bestPriority) == Best(config, Now(), queue[..i])
      {
        assert queue[..i + 1][..i] == queue[..i];
        var pkt := packets[queue[i]];
        if !pkt.scheduled {
          var bank := bankRequest[BankOf(config, pkt)];
          if !bank.valid {
            var priority := 100;
            if bank.openRow == Some(RowOf(config, pkt)) {
              priority := priority + 1000;
            }
            priority := priority + (currentCycle - pkt.readyTime);
            if priority > bestPriority {
              bestPriority := priority;
              bestPkt := Some(queue[i]);
            }
          }
        }
      }
      assert queue[..|queue|] == queue;
    }

    method ServicePacket(choice: Option<nat>)
      requires Valid() && (choice.Some? ==> choice.value in packets)
      modifies this, bankRequest
      ensures Now() == Service(config, old(Now()), choice)
    {
      if choice == None {
        return;
      }
      var pkt := packets[choice.value];
      if pkt.readyTime > currentCycle {
        return;
      }
      var i := BankOf(config, pkt);
      var bank := bankRequest[i];
      if bank.valid {
        return;
      }
      var row := RowOf(config, pkt);
      var latency;
      if bank.openRow == Some(row) {
        latency := config.tCAS;
      } else if bank.openRow != None {
        latency := config.tRP + config.tRCD + config.tCAS;
      } else {
        latency := config.tRCD + config.tCAS;
      }
      bankRequest[i] := Bank(true, Some(row), currentCycle + latency, choice);
      packets := packets[choice.value := pkt.(scheduled := true)];
    }
  }

  lemma {:induction false} RemoveAt(queue: seq<nat>, i: nat, id: nat)
    requires i < |queue| && queue[i] == id && id !in queue[..i]
    ensures Remove(queue, id) == queue[..i] + queue[i + 1..] && id in queue
    decreases i
  {
    if i > 0 {
      assert queue[0] == queue[..i][0];
      assert queue[1..][..i - 1] == queue[..i][1..];
      RemoveAt(queue[1..], i - 1, id);
      assert [queue[0]] + (queue[1..][..i - 1] + queue[1..][i..]) == queue[..i] + queue[i + 1..];
    }
  }

  lemma {:induction false} RemoveAbsent(queue: seq<nat>, id: nat)
    requires id !in queue
    ensures Remove(queue, id) == queue
    decreases |queue|
  {
    if queue != [] {
      RemoveAbsent(queue[1..], id);
      assert [queue[0]] + queue[1..] == queue;
    }
  }

  /** One more bank of the reset loop. */
  lemma ResetOneMore(s: State, i: nat)
    requires i < |s.banks|
    requires forall j :: 0 <= j < |s.banks| && s.banks[j].valid ==> s.banks[j].pkt.Some? && s.banks[j].pkt.value in s.packets
    ensures var before, after := ResetPackets(s, GivenBack(s, i)), ResetPackets(s, GivenBack(s, i + 1));
            if Resets(s, i)
            then
              var id := s.banks[i].pkt.value;
              id in before && after == before[id := before[id].(scheduled := false, readyTime := s.cycle)]
            else after == before
  {
    if Resets(s, i) {
      assert GivenBack(s, i + 1) == GivenBack(s, i) + {s.banks[i].pkt.value};
    } else {
      assert GivenBack(s, i + 1) == GivenBack(s, i);
    }
  }

  lemma CycleIsOk(k: Timing, s: State)
    requires Shaped(k, s)
    ensures Shaped(k, s.(cycle := s.cycle + 1))
  {
  }

  /** The steps of one tick. */
  lemma TickInParts(k: Timing, s: State, finished: State, swapped: State, populated: State, choice: Option<nat>)
    requires Shaped(k, s) && Shaped(k, finished) && Shaped(k, swapped) && Shaped(k, populated)
    requires finished == Finish(k, s.(cycle := s.cycle + 1)) && swapped == Swap(k, finished) && populated == Populate(k, swapped)
    requires (forall id :: id in Queue(populated) ==> id in populated.packets) && choice == Best(k, populated, Queue(populated)).0
    ensures Channel.Tick(k, s) == Service(k, populated, choice)
  {
    hide Finish, Swap, Populate, Best, Service;
  }
}
