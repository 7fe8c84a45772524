/** The cache with miss handling (internal/capabilities/cache/set_associative_cache.go): misses
    wait in the queue of module MSHR until the lower level answers, or are filled at once in
    standalone mode. The lemmas are about runs in which requests and responses come in any
    order. */
module MissRuns {
  import D = Directory
  import opened MSHR
  import opened Recency
  import opened SetAssociative
  import opened CacheRuns
  import S = StandaloneRuns

  /** A lower level that is sent misses; without one, standalone mode or nobody. */
  datatype Mode = LowerLevel | Standalone | Nobody

  datatype Config = Config(shape: Geometry, mshrSize: nat, hitLatency: nat, fillLatency: nat, mode: Mode)

  /** `sent` is what the lower level has been asked for. `joined` and `released` are history:
      each instruction that began, or ceased, to wait for a block. */
  datatype State = State(cache: Cache, entries: seq<Entry>, sent: seq<nat>,
                         joined: seq<(nat, nat)>, released: seq<(nat, nat)>)

  datatype Reply = Reply(hit: bool, readyCycle: nat, mshrIndex: int)

  function Pairs(block: nat, ids: seq<nat>): seq<(nat, nat)> {
    seq(|ids|, i requires 0 <= i < |ids| => (block, ids[i]))
  }

  /** HandleFill: the block's entry leaves the queue, whoever asked for the block. */
  function HandleFill(k: Config, s: State, addr: nat): (s': State)
    requires Shaped(k.shape, s.cache)
    ensures Shaped(k.shape, s'.cache)
  {
    var block := BlockAddr(k.shape, addr);
    s.(cache := Fill(k.shape, s.cache, block, D.Exclusive).0,
       entries := Taken(s.entries, block).0,
       released := s.released + Pairs(block, Waiting(s.entries, block)))
  }

  /** handleMiss: the miss joins the entry of its block; or is turned away by a full queue; or
      gets an entry of its own, for which the lower level is asked. */
  function HandleMiss(k: Config, s: State, addr: nat, instr: nat, cycle: nat): (r: (State, Reply))
    requires Shaped(k.shape, s.cache)
    ensures Shaped(k.shape, r.0.cache)
  {
    var block := BlockAddr(k.shape, addr);
    var i := FindEntry(s.entries, block);
    var waits := s.(entries := Miss(s.entries, k.mshrSize, block, instr, cycle + k.fillLatency),
                    joined := if instr in Waiting(s.entries, block) then s.joined else s.joined + [(block, instr)]);
    if i < |s.entries| then (waits, Reply(false, s.entries[i].readyCycle, i))
    else if |s.entries| >= k.mshrSize then (s, Reply(false, cycle + k.hitLatency + k.fillLatency, -1))
    else
      var s' := match k.mode
        case LowerLevel => waits.(sent := s.sent + [block])
        case Standalone => HandleFill(k, waits, block)
        case Nobody => waits;
      (s', Reply(false, cycle + k.fillLatency, |s.entries|))
  }

  function Access(k: Config, s: State, addr: nat, instr: nat, isWrite: bool, cycle: nat): (r: (State, Reply))
    requires Shaped(k.shape, s.cache)
    ensures Shaped(k.shape, r.0.cache)
  {
    var (c, hit) := SetAssociative.Access(k.shape, s.cache, addr, isWrite);
    var s' := s.(cache := c);
    if hit then (s', Reply(true, cycle + k.hitLatency, -1)) else HandleMiss(k, s', addr, instr, cycle)
  }

  // ------------------------------------------------------------------ runs

  /** The lower level answers any block at any time, also one that nobody waits for. */
  datatype Event =
    | Request(addr: nat, instr: nat, isWrite: bool, cycle: nat)
    | Response(addr: nat)

  function Step(k: Config, s: State, e: Event): (s': State)
    requires Shaped(k.shape, s.cache)
    ensures Shaped(k.shape, s'.cache)
  {
    match e
    case Request(addr, instr, isWrite, cycle) => Access(k, s, addr, instr, isWrite, cycle).0
    case Response(addr) => HandleFill(k, s, addr)
  }

  function Run(k: Config, events: seq<Event>): (s: State)
    ensures Shaped(k.shape, s.cache)
  {
    if events == [] then State(New(k.shape), [], [], [], [])
    else Step(k, Run(k, events[..|events| - 1]), events[|events| - 1])
  }

  // ------------------------------------------------ the cache under the queue

  /** What an event does to the cache. */
  function OpsOf(k: Config, s: State, e: Event): seq<Op>
    requires Shaped(k.shape, s.cache)
  {
    match e
    case Request(addr, _, isWrite, _) =>
      var filled := k.mode == Standalone && !SetAssociative.Access(k.shape, s.cache, addr, isWrite).1
                    && FindEntry(s.entries, BlockAddr(k.shape, addr)) == |s.entries| && |s.entries| < k.mshrSize;
      [AccessOp(addr, isWrite)] + if filled then [FillOp(BlockAddr(k.shape, BlockAddr(k.shape, addr)), D.Exclusive)] else []
    case Response(addr) => [FillOp(BlockAddr(k.shape, addr), D.Exclusive)]
  }

  function AllOps(k: Config, events: seq<Event>): seq<Op> {
    if events == [] then []
    else
      var n := |events| - 1;
      AllOps(k, events[..n]) + OpsOf(k, Run(k, events[..n]), events[n])
  }

  lemma AfterOps(g: Geometry, ops: seq<Op>, op: Op)
    ensures After(g, ops + [op]) == Apply(g, After(g, ops), op)
  {
    assert (ops + [op])[..|ops|] == ops;
  }

  lemma EventIsOps(k: Config, s: State, e: Event, ops: seq<Op>)
    requires Shaped(k.shape, s.cache) && s.cache == After(k.shape, ops)
    ensures Step(k, s, e).cache == After(k.shape, ops + OpsOf(k, s, e))
  {
    hide Fill, SetAssociative.Access, After, Taken, Waiting;
    var added := OpsOf(k, s, e);
    AfterOps(k.shape, ops, added[0]);
    if |added| == 1 {
      assert added == [added[0]];
    } else {
      AfterOps(k.shape, ops + [added[0]], added[1]);
      assert ops + added == (ops + [added[0]]) + [added[1]];
    }
  }

  /** Whatever the mode, and however requests and responses interleave, the cache has seen a
      run of accesses and fills. So each of its sets is the recency list of that run. */
  lemma {:induction false} RunIsLru(k: Config, events: seq<Event>, set_: nat)
    requires set_ < k.shape.numSets
    ensures Run(k, events).cache == After(k.shape, AllOps(k, events))
    ensures SetRefines(k.shape, Run(k, events).cache, set_, RecencyList(k.shape, AllOps(k, events), set_))
    decreases |events|
  {
    hide Step, SetRefines, OpsOf;
    if events != [] {
      var n := |events| - 1;
      RunIsLru(k, events[..n], set_);
      EventIsOps(k, Run(k, events[..n]), events[n], AllOps(k, events[..n]));
    }
    CountersImplementLru(k.shape, AllOps(k, events), set_);
  }

  // ------------------------------------------------ the queue

  predicate Waits(entries: seq<Entry>, block: nat) {
    FindEntry(entries, block) < |entries|
  }

  /** Entries stay one per block and within the bound, an instruction waits once, and what is
      waited for is not in the cache. */
  ghost predicate QueueOk(k: Config, s: State)
    requires Shaped(k.shape, s.cache)
  {
    && OnePerBlock(s.entries) && |s.entries| <= k.mshrSize
    && (forall block :: Distinct(Waiting(s.entries, block)))
    && forall block :: Waits(s.entries, block) ==> BlockAddr(k.shape, block) == block && !Present(k.shape, s.cache, block)
  }

  /** Whoever began to wait has been released since, or still waits. */
  ghost predicate Accounted(s: State, block: nat, id: nat) {
    multiset(s.joined)[(block, id)] ==
    multiset(s.released)[(block, id)] + if id in Waiting(s.entries, block) then 1 else 0
  }

  lemma {:induction false} CountPairs(at: nat, ids: seq<nat>, block: nat, id: nat)
    requires Distinct(ids)
    ensures multiset(Pairs(at, ids))[(block, id)] == if block == at && id in ids then 1 else 0
    decreases |ids|
  {
    if ids == [] {
      assert Pairs(at, ids) == [];
    } else {
      var n := |ids| - 1;
      CountPairs(at, ids[..n], block, id);
      assert Pairs(at, ids) == Pairs(at, ids[..n]) + [(at, ids[n])];
      assert ids == ids[..n] + [ids[n]];
    }
  }

  lemma JoinIsDistinct(ids: seq<nat>, id: nat)
    requires Distinct(ids)
    ensures Distinct(Join(ids, id))
    ensures forall x :: x in Join(ids, id) <==> x in ids || x == id
  {
  }

  /** Only a fill of the block brings it into the cache. */
  lemma StaysAbsent(g: Geometry, c: Cache, op: Op, block: nat)
    requires Shaped(g, c) && !Present(g, c, block)
    requires op.FillOp? ==> BlockAddr(g, op.addr) != BlockAddr(g, block)
    ensures !Present(g, Apply(g, c, op), block)
  {
    var s, s' := SetIndex(g, op.addr), SetIndex(g, block);
    var b := BlockAddr(g, block);
    var row, row' := c.rows[s'], Apply(g, c, op).rows[s'];
    forall w | 0 <= w < g.numWays
      ensures !Holds(row'.lines[w], b)
    {
      assert !Holds(row.lines[w], b);
    }
  }

  lemma FillQueue(k: Config, s: State, addr: nat)
    requires Shaped(k.shape, s.cache) && QueueOk(k, s)
    ensures QueueOk(k, HandleFill(k, s, addr))
  {
    hide Present, BlockAddr, Fill, Waiting, OnePerBlock, Taken;
    var s', at := HandleFill(k, s, addr), BlockAddr(k.shape, addr);
    BlockOfBlock(k.shape, addr);
    TakenIsShorter(s.entries, at);
    forall block
      ensures OnePerBlock(s'.entries) && Distinct(Waiting(s'.entries, block))
      ensures Waits(s'.entries, block) ==> BlockAddr(k.shape, block) == block && !Present(k.shape, s'.cache, block)
    {
      FillReleasesAll(s.entries, at, block);
      WaitsAfterFill(s.entries, at, block);
      if Waits(s'.entries, block) {
        StaysAbsent(k.shape, s.cache, FillOp(at, D.Exclusive), block);
      }
    }
  }

  lemma TakenIsShorter(entries: seq<Entry>, block: nat)
    ensures |Taken(entries, block).0| <= |entries|
  {
  }

  lemma WaitsAfterFill(entries: seq<Entry>, at: nat, block: nat)
    requires OnePerBlock(entries)
    ensures Waits(Taken(entries, at).0, block) <==> Waits(entries, block) && block != at
  {
    var i := FindEntry(entries, at);
    var j := FindEntry(entries, block);
    var after := Taken(entries, at).0;
    if j < |entries| && block != at && i < |entries| {
      assert after[if j < i then j else j - 1] == entries[j];
    }
  }

  lemma FillAccounts(k: Config, s: State, addr: nat, block: nat, id: nat)
    requires Shaped(k.shape, s.cache) && QueueOk(k, s) && Accounted(s, block, id)
    ensures Accounted(HandleFill(k, s, addr), block, id)
  {
    hide Present, BlockAddr, Fill, Waiting, OnePerBlock, Taken;
    var at := BlockAddr(k.shape, addr);
    FillReleasesAll(s.entries, at, block);
    CountPairs(at, Waiting(s.entries, at), block, id);
  }

  /** A miss that is not turned away waits, with nobody else affected. */
  function Waiter(k: Config, s: State, addr: nat, instr: nat, cycle: nat): State {
    var block := BlockAddr(k.shape, addr);
    s.(entries := Miss(s.entries, k.mshrSize, block, instr, cycle + k.fillLatency),
       joined := if instr in Waiting(s.entries, block) then s.joined else s.joined + [(block, instr)])
  }

  predicate TurnedAway(k: Config, s: State, addr: nat) {
    !Waits(s.entries, BlockAddr(k.shape, addr)) && |s.entries| >= k.mshrSize
  }

  lemma WaitsAfterMiss(entries: seq<Entry>, maxSize: int, at: nat, instr: nat, readyCycle: nat, block: nat)
    ensures Waits(Miss(entries, maxSize, at, instr, readyCycle), block)
            <==> Waits(entries, block) || (block == at && |entries| < maxSize)
  {
    var after := Miss(entries, maxSize, at, instr, readyCycle);
    var j := FindEntry(entries, block);
    if j < |entries| {
      assert after[j].address == block;
    }
    if block == at && |entries| < maxSize && FindEntry(entries, at) == |entries| {
      assert after[|entries|].address == block;
    }
  }

  /** The entries after a miss that is not turned away, seen from one block. */
  lemma EntriesAfterMiss(k: Config, s: State, addr: nat, instr: nat, cycle: nat, block: nat)
    requires Shaped(k.shape, s.cache) && QueueOk(k, s) && !TurnedAway(k, s, addr)
    ensures var entries, at := Waiter(k, s, addr, instr, cycle).entries, BlockAddr(k.shape, addr);
            && OnePerBlock(entries) && |entries| <= k.mshrSize
            && Waiting(entries, block) == (if block == at then Join(Waiting(s.entries, at), instr) else Waiting(s.entries, block))
            && Distinct(Waiting(entries, block))
            && (Waits(entries, block) ==> Waits(s.entries, block) || block == at)
  {
    var at := BlockAddr(k.shape, addr);
    hide BlockAddr, Waiting, OnePerBlock, Miss, Join;
    MissIsRecorded(s.entries, k.mshrSize, at, instr, cycle + k.fillLatency, block);
    WaitsAfterMiss(s.entries, k.mshrSize, at, instr, cycle + k.fillLatency, block);
    JoinIsDistinct(Waiting(s.entries, at), instr);
  }

  lemma WaiterQueue(k: Config, s: State, addr: nat, instr: nat, cycle: nat)
    requires Shaped(k.shape, s.cache) && QueueOk(k, s) && !TurnedAway(k, s, addr)
    requires !Present(k.shape, s.cache, addr)
    ensures QueueOk(k, Waiter(k, s, addr, instr, cycle))
  {
    var s', at := Waiter(k, s, addr, instr, cycle), BlockAddr(k.shape, addr);
    BlockOfBlock(k.shape, addr);
    assert !Present(k.shape, s.cache, at) && s'.cache == s.cache;
    EntriesAfterMiss(k, s, addr, instr, cycle, at);
    hide Present, BlockAddr, Waiting, OnePerBlock, Waiter, TurnedAway, Waits;
    forall block
      ensures Distinct(Waiting(s'.entries, block))
      ensures Waits(s'.entries, block) ==> BlockAddr(k.shape, block) == block && !Present(k.shape, s'.cache, block)
    {
      EntriesAfterMiss(k, s, addr, instr, cycle, block);
    }
  }

  /** The history of joining grows exactly if somebody waits who did not. */
  lemma JoinCounts(joined: seq<(nat, nat)>, ids: seq<nat>, at: nat, instr: nat, block: nat, id: nat)
    ensures var after := if instr in ids then joined else joined + [(at, instr)];
            multiset(after)[(block, id)] ==
            multiset(joined)[(block, id)] + if block == at && id in Join(ids, instr) && id !in ids then 1 else 0
    ensures forall x :: x in ids ==> x in Join(ids, instr)
  {
    assert multiset(joined + [(at, instr)]) == multiset(joined) + multiset{(at, instr)};
  }

  lemma WaiterAccounts(k: Config, s: State, addr: nat, instr: nat, cycle: nat, block: nat, id: nat)
    requires Shaped(k.shape, s.cache) && QueueOk(k, s) && !TurnedAway(k, s, addr) && Accounted(s, block, id)
    ensures Accounted(Waiter(k, s, addr, instr, cycle), block, id)
  {
    var at := BlockAddr(k.shape, addr);
    EntriesAfterMiss(k, s, addr, instr, cycle, block);
    JoinCounts(s.joined, Waiting(s.entries, at), at, instr, block, id);
    hide BlockAddr, Waiting, OnePerBlock, Miss, QueueOk, Join, TurnedAway, Distinct;
  }

  /** handleMiss in parts. */
  lemma MissInParts(k: Config, s: State, addr: nat, instr: nat, cycle: nat)
    requires Shaped(k.shape, s.cache)
    ensures var s', w := HandleMiss(k, s, addr, instr, cycle).0, Waiter(k, s, addr, instr, cycle);
            if TurnedAway(k, s, addr) then s' == s
            else if k.mode == Standalone && !Waits(s.entries, BlockAddr(k.shape, addr))
            then s' == HandleFill(k, w, BlockAddr(k.shape, addr))
            else s' == w.(sent := s'.sent)
  {
  }

  lemma MissKeepsQueue(k: Config, s: State, addr: nat, instr: nat, cycle: nat)
    requires Shaped(k.shape, s.cache) && QueueOk(k, s) && !Present(k.shape, s.cache, addr)
    ensures QueueOk(k, HandleMiss(k, s, addr, instr, cycle).0)
  {
    hide Present, BlockAddr, Waiting, OnePerBlock, Miss, HandleMiss, HandleFill;
    MissInParts(k, s, addr, instr, cycle);
    if !TurnedAway(k, s, addr) {
      WaiterQueue(k, s, addr, instr, cycle);
      FillQueue(k, Waiter(k, s, addr, instr, cycle), BlockAddr(k.shape, addr));
    }
  }

  lemma MissAccounts(k: Config, s: State, addr: nat, instr: nat, cycle: nat, block: nat, id: nat)
    requires Shaped(k.shape, s.cache) && QueueOk(k, s) && !Present(k.shape, s.cache, addr) && Accounted(s, block, id)
    ensures Accounted(HandleMiss(k, s, addr, instr, cycle).0, block, id)
  {
    MissInParts(k, s, addr, instr, cycle);
    hide Present, BlockAddr, Waiting, OnePerBlock, Miss, HandleMiss, HandleFill;
    if !TurnedAway(k, s, addr) {
      WaiterQueue(k, s, addr, instr, cycle);
      WaiterAccounts(k, s, addr, instr, cycle, block, id);
      FillAccounts(k, Waiter(k, s, addr, instr, cycle), BlockAddr(k.shape, addr), block, id);
    }
  }

  /** An access leaves what is absent absent, and misses exactly what is. */
  lemma AccessKeepsAbsent(k: Config, s: State, addr: nat, isWrite: bool)
    requires Shaped(k.shape, s.cache) && QueueOk(k, s)
    ensures var (c, hit) := SetAssociative.Access(k.shape, s.cache, addr, isWrite);
            && QueueOk(k, s.(cache := c))
            && (!hit ==> !Present(k.shape, c, addr))
  {
    var op := AccessOp(addr, isWrite);
    forall block | Waits(s.entries, block)
      ensures !Present(k.shape, Apply(k.shape, s.cache, op), block)
    {
      StaysAbsent(k.shape, s.cache, op, block);
    }
  }

  lemma StepKeepsQueue(k: Config, s: State, e: Event)
    requires Shaped(k.shape, s.cache) && QueueOk(k, s)
    ensures QueueOk(k, Step(k, s, e))
    ensures forall block, id :: Accounted(s, block, id) ==> Accounted(Step(k, s, e), block, id)
  {
    hide QueueOk, HandleFill, HandleMiss, SetAssociative.Access, Present;
    match e
    case Request(addr, instr, isWrite, cycle) =>
      AccessKeepsAbsent(k, s, addr, isWrite);
      var (c, hit) := SetAssociative.Access(k.shape, s.cache, addr, isWrite);
      if !hit {
        MissKeepsQueue(k, s.(cache := c), addr, instr, cycle);
        forall block, id | Accounted(s, block, id) ensures Accounted(Step(k, s, e), block, id) {
          MissAccounts(k, s.(cache := c), addr, instr, cycle, block, id);
        }
      }
    case Response(addr) =>
      FillQueue(k, s, addr);
      forall block, id | Accounted(s, block, id) ensures Accounted(Step(k, s, e), block, id) {
        FillAccounts(k, s, addr, block, id);
      }
  }

  lemma {:induction false} RunKeepsQueue(k: Config, events: seq<Event>, block: nat, id: nat)
    ensures QueueOk(k, Run(k, events)) && Accounted(Run(k, events), block, id)
    decreases |events|
  {
    hide QueueOk, Step, Accounted;
    if events == [] {
      NobodyYet(k, block, id);
    } else {
      var n := |events| - 1;
      RunKeepsQueue(k, events[..n], block, id);
      StepKeepsQueue(k, Run(k, events[..n]), events[n]);
    }
  }

  lemma NobodyYet(k: Config, block: nat, id: nat)
    ensures QueueOk(k, Run(k, [])) && Accounted(Run(k, []), block, id)
  {
  }

  /** In every run of requests and responses there is one entry per block, within the size of
      the queue; a block that is waited for is not in the cache; and every instruction that
      began to wait for a block has been released exactly once since, or still waits, once. */
  lemma WaitersAreReleasedOnce(k: Config, events: seq<Event>, block: nat, id: nat)
    ensures var s := Run(k, events);
            && OnePerBlock(s.entries) && |s.entries| <= k.mshrSize
            && (Waits(s.entries, block) ==> !Present(k.shape, s.cache, block))
            && Distinct(Waiting(s.entries, block))
            && multiset(s.joined)[(block, id)] ==
               multiset(s.released)[(block, id)] + if id in Waiting(s.entries, block) then 1 else 0
  {
    RunKeepsQueue(k, events, block, id);
  }

  /** A waiter is in the entry of its block. */
  lemma WaiterIsEntered(k: Config, s: State, addr: nat, instr: nat, cycle: nat)
    requires Shaped(k.shape, s.cache) && QueueOk(k, s) && !TurnedAway(k, s, addr)
    ensures var w, block := Waiter(k, s, addr, instr, cycle), BlockAddr(k.shape, addr);
            var i := FindEntry(s.entries, block);
            && i < |w.entries| && w.entries[i].address == block && FindEntry(w.entries, block) == i
            && w.entries[i].readyCycle == (if i < |s.entries| then s.entries[i].readyCycle else cycle + k.fillLatency)
            && instr in w.entries[i].dependents
  {
    var w, block := Waiter(k, s, addr, instr, cycle), BlockAddr(k.shape, addr);
    var i := FindEntry(s.entries, block);
    assert w.entries[i].address == block;
  }

  lemma FilledIsPresent(k: Config, s: State, addr: nat)
    requires Shaped(k.shape, s.cache)
    ensures Present(k.shape, HandleFill(k, s, addr).cache, addr)
  {
    var g, block := k.shape, BlockAddr(k.shape, addr);
    BlockOfBlock(g, addr);
    var row := s.cache.rows[SetIndex(g, addr)];
    var found := FindWay(row.lines, block);
    var w := if found < g.numWays then found else LruWay(row.counters, g.numWays);
    assert Holds(HandleFill(k, s, addr).cache.rows[SetIndex(g, addr)].lines[w], block);
  }

  /** A block that is filled at once has no entry, and its waiter is released. */
  lemma FilledAtOnce(k: Config, s: State, addr: nat, instr: nat, cycle: nat)
    requires Shaped(k.shape, s.cache) && QueueOk(k, s) && !TurnedAway(k, s, addr) && !Present(k.shape, s.cache, addr)
    ensures var s', block := HandleFill(k, Waiter(k, s, addr, instr, cycle), BlockAddr(k.shape, addr)), BlockAddr(k.shape, addr);
            && !Waits(s'.entries, block) && Present(k.shape, s'.cache, addr) && (block, instr) in s'.released
  {
    var w, block := Waiter(k, s, addr, instr, cycle), BlockAddr(k.shape, addr);
    WaiterIsEntered(k, s, addr, instr, cycle);
    WaiterQueue(k, s, addr, instr, cycle);
    BlockOfBlock(k.shape, addr);
    FilledIsPresent(k, w, block);
    WaitsAfterFill(w.entries, block, block);
    var ids := Waiting(w.entries, block);
    var j :| 0 <= j < |ids| && ids[j] == instr;
    hide Fill, Taken, Waiter, QueueOk, Miss;
    var s' := HandleFill(k, w, block);
    assert Pairs(block, ids)[j] == (block, instr);
    assert s'.released == w.released + Pairs(block, ids);
    assert s'.released[|w.released| + j] == (block, instr);
  }

  /** What a request is told: a miss is turned away exactly if the queue is full and nobody
      waits for its block; otherwise it waits with its block, in the entry it is told, unless
      standalone mode has filled the block already. */
  ghost predicate Told(k: Config, s: State, addr: nat, instr: nat, s': State, reply: Reply)
    requires Shaped(k.shape, s'.cache)
  {
    var block := BlockAddr(k.shape, addr);
    && !reply.hit
    && (reply.mshrIndex == -1 <==> TurnedAway(k, s, addr))
    && (!TurnedAway(k, s, addr) ==>
          if Waits(s'.entries, block)
          then && 0 <= reply.mshrIndex < |s'.entries| && instr in Waiting(s'.entries, block)
               && s'.entries[reply.mshrIndex].address == block
               && s'.entries[reply.mshrIndex].readyCycle == reply.readyCycle
          else k.mode == Standalone && Present(k.shape, s'.cache, addr) && (block, instr) in s'.released)
  }

  lemma MissIsTold(k: Config, s: State, addr: nat, instr: nat, cycle: nat)
    requires Shaped(k.shape, s.cache) && QueueOk(k, s) && !Present(k.shape, s.cache, addr)
    ensures Told(k, s, addr, instr, HandleMiss(k, s, addr, instr, cycle).0, HandleMiss(k, s, addr, instr, cycle).1)
  {
    MissInParts(k, s, addr, instr, cycle);
    RepliesTell(k, s, addr, instr, cycle);
    hide HandleMiss, HandleFill, Present, BlockAddr, Waiting, QueueOk, Miss, Waiter;
    if !TurnedAway(k, s, addr) {
      WaiterIsEntered(k, s, addr, instr, cycle);
      FilledAtOnce(k, s, addr, instr, cycle);
      EnteredMeansWaiting(Waiter(k, s, addr, instr, cycle).entries, BlockAddr(k.shape, addr));
    }
  }

  lemma EnteredMeansWaiting(entries: seq<Entry>, block: nat)
    ensures Waits(entries, block) ==> Waiting(entries, block) == entries[FindEntry(entries, block)].dependents
  {
  }

  lemma RepliesTell(k: Config, s: State, addr: nat, instr: nat, cycle: nat)
    requires Shaped(k.shape, s.cache)
    ensures var reply := HandleMiss(k, s, addr, instr, cycle).1;
            var i := FindEntry(s.entries, BlockAddr(k.shape, addr));
            !reply.hit &&
            if TurnedAway(k, s, addr) then reply.mshrIndex == -1
            else reply.mshrIndex == i &&
                 reply.readyCycle == if i < |s.entries| then s.entries[i].readyCycle else cycle + k.fillLatency
  {
  }

  /** In every run a request hits if and only if its block is in the cache, and a miss is told
      the truth. */
  lemma MissesWait(k: Config, events: seq<Event>, addr: nat, instr: nat, isWrite: bool, cycle: nat)
    ensures var s := Run(k, events);
            var (s', reply) := Access(k, s, addr, instr, isWrite, cycle);
            && (reply.hit <==> Present(k.shape, s.cache, addr))
            && (!reply.hit ==> Told(k, s, addr, instr, s', reply))
  {
    var s := Run(k, events);
    RunKeepsQueue(k, events, 0, instr);
    var (c, hit) := SetAssociative.Access(k.shape, s.cache, addr, isWrite);
    assert hit <==> Present(k.shape, s.cache, addr);
    if !hit {
      AccessKeepsAbsent(k, s, addr, isWrite);
      hide SetAssociative.Access, HandleMiss, QueueOk, Present, Run;
      MissIsTold(k, s.(cache := c), addr, instr, cycle);
    }
  }

  // ------------------------------------------------ when the data is ready

  /** The cycle of the request that was the first to wait for a block, if somebody waits: it
      found neither the block nor anybody waiting for it, and room in the queue; and no
      response has come for the block since. */
  function FirstAsked(k: Config, events: seq<Event>, block: nat): Option<nat> {
    if events == [] then None
    else
      var before := FirstAsked(k, events[..|events| - 1], block);
      var s := Run(k, events[..|events| - 1]);
      match events[|events| - 1]
      case Response(addr) => if BlockAddr(k.shape, addr) == block then None else before
      case Request(addr, _, _, cycle) =>
        if BlockAddr(k.shape, addr) == block && before == None && !Present(k.shape, s.cache, addr)
           && |s.entries| < k.mshrSize && k.mode != Standalone
        then Some(cycle) else before
  }

  /** The entry of a block, if there is one, says when the block is ready. */
  predicate ReadyAt(k: Config, entries: seq<Entry>, block: nat, asked: Option<nat>) {
    var i := FindEntry(entries, block);
    match asked
    case None => i == |entries|
    case Some(cycle) => i < |entries| && entries[i].readyCycle == cycle + k.fillLatency
  }

  lemma ReadyForWaiter(k: Config, entries: seq<Entry>, at: nat, instr: nat, cycle: nat, block: nat, asked: Option<nat>)
    requires ReadyAt(k, entries, block, asked)
    ensures ReadyAt(k, Miss(entries, k.mshrSize, at, instr, cycle + k.fillLatency), block,
                    if at == block && asked == None && |entries| < k.mshrSize then Some(cycle) else asked)
  {
    EntryAfterMiss(entries, k.mshrSize, at, instr, cycle + k.fillLatency, block);
    hide Miss;
  }

  lemma ReadyAfterFill(k: Config, entries: seq<Entry>, at: nat, block: nat, asked: Option<nat>)
    requires OnePerBlock(entries) && ReadyAt(k, entries, block, asked)
    ensures ReadyAt(k, Taken(entries, at).0, block, if at == block then None else asked)
  {
    EntryAfterFill(entries, at, block);
    hide Taken;
  }

  lemma WaitsIfAsked(k: Config, entries: seq<Entry>, block: nat, asked: Option<nat>)
    requires ReadyAt(k, entries, block, asked)
    ensures Waits(entries, block) <==> asked != None
  {
  }

  lemma ReadyAfterMiss(k: Config, s: State, addr: nat, instr: nat, cycle: nat, block: nat, asked: Option<nat>)
    requires Shaped(k.shape, s.cache) && OnePerBlock(s.entries) && ReadyAt(k, s.entries, block, asked)
    ensures var first := BlockAddr(k.shape, addr) == block && asked == None && |s.entries| < k.mshrSize && k.mode != Standalone;
            ReadyAt(k, HandleMiss(k, s, addr, instr, cycle).0.entries, block, if first then Some(cycle) else asked)
  {
    hide HandleMiss, Miss, BlockAddr, Fill, ReadyAt, Waiting, Present, Taken, OnePerBlock;
    var at := BlockAddr(k.shape, addr);
    var entries := Miss(s.entries, k.mshrSize, at, instr, cycle + k.fillLatency);
    MissInParts(k, s, addr, instr, cycle);
    ReadyForWaiter(k, s.entries, at, instr, cycle, block, asked);
    BlockOfBlock(k.shape, addr);
    MissIsRecorded(s.entries, k.mshrSize, at, instr, cycle + k.fillLatency, block);
    WaitsIfAsked(k, s.entries, block, asked);
    if k.mode == Standalone && !Waits(s.entries, at) && !TurnedAway(k, s, addr) {
      ReadyAfterFill(k, entries, at, block, if at == block && asked == None && |s.entries| < k.mshrSize then Some(cycle) else asked);
    }
  }

  lemma EntryAfterMiss(entries: seq<Entry>, maxSize: nat, at: nat, instr: nat, readyCycle: nat, block: nat)
    ensures var after := Miss(entries, maxSize, at, instr, readyCycle);
            var i, j := FindEntry(entries, block), FindEntry(after, block);
            if i < |entries| then j < |after| && after[j].readyCycle == entries[i].readyCycle
            else if block == at && |entries| < maxSize then j < |after| && after[j].readyCycle == readyCycle
            else j == |after|
  {
    var after := Miss(entries, maxSize, at, instr, readyCycle);
    var i := FindEntry(entries, block);
    if i < |entries| {
      assert after[i].address == block;
    }
    if block == at && |entries| < maxSize && i == |entries| {
      assert after[|entries|].address == block;
    }
  }

  lemma EntryAfterFill(entries: seq<Entry>, at: nat, block: nat)
    requires OnePerBlock(entries)
    ensures var after := Taken(entries, at).0;
            var i, j := FindEntry(entries, block), FindEntry(after, block);
            if i < |entries| && block != at then j < |after| && after[j] == entries[i] else j == |after|
  {
    WaitsAfterFill(entries, at, block);
    var after := Taken(entries, at).0;
    var i, gone := FindEntry(entries, block), FindEntry(entries, at);
    if i < |entries| && block != at && gone < |entries| {
      var at' := if i < gone then i else i - 1;
      assert after[at'] == entries[i];
      var j := FindEntry(after, block);
      assert after[j] == entries[if j < gone then j else j + 1];
    }
  }

  lemma ReadyAfterStep(k: Config, s: State, e: Event, block: nat, asked: Option<nat>)
    requires Shaped(k.shape, s.cache) && QueueOk(k, s) && ReadyAt(k, s.entries, block, asked)
    ensures ReadyAt(k, Step(k, s, e).entries, block,
                    match e
                    case Response(addr) => if BlockAddr(k.shape, addr) == block then None else asked
                    case Request(addr, _, _, cycle) =>
                      if BlockAddr(k.shape, addr) == block && asked == None && !Present(k.shape, s.cache, addr)
                         && |s.entries| < k.mshrSize && k.mode != Standalone
                      then Some(cycle) else asked)
  {
    match e
    case Response(addr) => ReadyAfterFill(k, s.entries, BlockAddr(k.shape, addr), block, asked);
    case Request(addr, instr, isWrite, cycle) =>
      var (c, hit) := SetAssociative.Access(k.shape, s.cache, addr, isWrite);
      assert hit <==> Present(k.shape, s.cache, addr);
      hide SetAssociative.Access, Present, HandleMiss;
      if !hit {
        ReadyAfterMiss(k, s.(cache := c), addr, instr, cycle, block, asked);
      } else if BlockAddr(k.shape, addr) == block {
        assert SetAssociative.Access(k.shape, s.cache, addr, isWrite).1;
      }
  }

  lemma {:induction false} RunIsReadyAt(k: Config, events: seq<Event>, block: nat)
    ensures ReadyAt(k, Run(k, events).entries, block, FirstAsked(k, events, block))
    decreases |events|
  {
    if events != [] {
      var n := |events| - 1;
      RunIsReadyAt(k, events[..n], block);
      RunKeepsQueue(k, events[..n], block, 0);
      hide Step, QueueOk, ReadyAt, Present;
      ReadyAfterStep(k, Run(k, events[..n]), events[n], block, FirstAsked(k, events[..n], block));
    }
  }

  /** What a request is told after any run. Data that is present is ready after the latency of
      a hit. Whoever is the first to wait for a block is told that it comes after the latency
      of a fill, and whoever joins later is told that same cycle, with the entry of the block.
      A request that finds the queue full is told to come back after both. */
  lemma RepliesAreOnTime(k: Config, events: seq<Event>, addr: nat, instr: nat, isWrite: bool, cycle: nat)
    ensures var s := Run(k, events);
            var reply := Access(k, s, addr, instr, isWrite, cycle).1;
            var block := BlockAddr(k.shape, addr);
            if Present(k.shape, s.cache, addr) then reply == Reply(true, cycle + k.hitLatency, -1)
            else match FirstAsked(k, events, block)
              case Some(asked) =>
                && !reply.hit && reply.readyCycle == asked + k.fillLatency
                && 0 <= reply.mshrIndex < |s.entries| && s.entries[reply.mshrIndex].address == block
              case None =>
                if |s.entries| >= k.mshrSize then reply == Reply(false, cycle + k.hitLatency + k.fillLatency, -1)
                else reply == Reply(false, cycle + k.fillLatency, |s.entries|)
  {
    var s := Run(k, events);
    RunIsReadyAt(k, events, BlockAddr(k.shape, addr));
    var (c, hit) := SetAssociative.Access(k.shape, s.cache, addr, isWrite);
    assert hit <==> Present(k.shape, s.cache, addr);
    hide SetAssociative.Access, Present, BlockAddr, Run, FirstAsked, Miss, HandleFill;
  }

  // ------------------------------------------------ the lower level

  /** Responses that answer somebody. */
  function Served(k: Config, events: seq<Event>, block: nat): nat {
    if events == [] then 0
    else
      var n := |events| - 1;
      Served(k, events[..n], block) +
      if events[n].Response? && BlockAddr(k.shape, events[n].addr) == block && Waits(Run(k, events[..n]).entries, block)
      then 1 else 0
  }

  function Ones(b: bool): nat {
    if b then 1 else 0
  }

  /** A miss asks the lower level exactly if it is the first to wait for its block. */
  lemma MissAsks(k: Config, s: State, addr: nat, instr: nat, cycle: nat, block: nat)
    requires k.mode == LowerLevel && Shaped(k.shape, s.cache)
    ensures var s' := HandleMiss(k, s, addr, instr, cycle).0;
            multiset(s'.sent)[block] == multiset(s.sent)[block] + Ones(Waits(s'.entries, block)) - Ones(Waits(s.entries, block))
  {
    var at := BlockAddr(k.shape, addr);
    WaitsAfterMiss(s.entries, k.mshrSize, at, instr, cycle + k.fillLatency, block);
    hide BlockAddr, Miss, Waiting;
    assert multiset(s.sent + [at])[block] == multiset(s.sent)[block] + Ones(at == block);
  }

  lemma SentByOne(k: Config, s: State, e: Event, block: nat)
    requires k.mode == LowerLevel && Shaped(k.shape, s.cache) && QueueOk(k, s)
    ensures var s' := Step(k, s, e);
            multiset(s'.sent)[block] ==
            multiset(s.sent)[block] + Ones(Waits(s'.entries, block)) - Ones(Waits(s.entries, block))
            + Ones(e.Response? && BlockAddr(k.shape, e.addr) == block && Waits(s.entries, block))
  {
    hide SetAssociative.Access, HandleMiss, Waits, Taken, Waiting, BlockAddr;
    match e
    case Response(addr) => WaitsAfterFill(s.entries, BlockAddr(k.shape, addr), block);
    case Request(addr, instr, isWrite, cycle) =>
      var (c, hit) := SetAssociative.Access(k.shape, s.cache, addr, isWrite);
      if !hit {
        MissAsks(k, s.(cache := c), addr, instr, cycle, block);
      }
  }

  /** Misses to one block are merged: in every run the lower level has been asked for a block
      once for each response that found somebody waiting, and once more while somebody still
      waits. */
  lemma {:induction false} LowerLevelIsAskedOnce(k: Config, events: seq<Event>, block: nat)
    requires k.mode == LowerLevel
    ensures var s := Run(k, events);
            multiset(s.sent)[block] == Served(k, events, block) + if Waits(s.entries, block) then 1 else 0
    decreases |events|
  {
    assert !Waits([], block);
    hide Step, QueueOk, Waits, BlockAddr;
    if events != [] {
      var n := |events| - 1;
      LowerLevelIsAskedOnce(k, events[..n], block);
      RunKeepsQueue(k, events[..n], block, 0);
      SentByOne(k, Run(k, events[..n]), events[n], block);
    }
  }

  // ------------------------------------------------ standalone mode

  function RequestsOf(events: seq<Event>): seq<S.Request>
    requires forall i :: 0 <= i < |events| ==> events[i].Request?
  {
    seq(|events|, i requires 0 <= i < |events| => S.Request(events[i].addr, events[i].isWrite))
  }

  lemma StandaloneStep(k: Config, s: State, e: Event)
    requires k.mode == Standalone && k.mshrSize > 0 && Shaped(k.shape, s.cache) && s.entries == [] && e.Request?
    ensures Step(k, s, e).entries == []
    ensures Step(k, s, e).cache == S.StandaloneAccess(k.shape, s.cache, e.addr, e.isWrite).0
  {
    BlockOfBlock(k.shape, e.addr);
    var entry := Entry(BlockAddr(k.shape, e.addr), e.cycle + k.fillLatency, [e.instr]);
    assert [entry][..0] + [entry][1..] == [];
    hide BlockAddr, Fill, SetAssociative.Access;
  }

  /** In standalone mode the queue is always empty between requests, and the cache is that of
      module StandaloneRuns, where more ways never hit less. */
  lemma {:induction false} StandaloneMode(k: Config, events: seq<Event>)
    requires k.mode == Standalone && k.mshrSize > 0
    requires forall i :: 0 <= i < |events| ==> events[i].Request?
    ensures Run(k, events).entries == [] && Run(k, events).cache == S.Run(k.shape, RequestsOf(events))
    decreases |events|
  {
    if events != [] {
      var n := |events| - 1;
      StandaloneMode(k, events[..n]);
      assert RequestsOf(events)[..n] == RequestsOf(events[..n]);
      StandaloneStep(k, Run(k, events[..n]), events[n]);
    }
  }
}
