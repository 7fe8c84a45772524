/** Runs of the set-associative cache (internal/components/cache/set_associative.go): accesses
    and fills in any order, as they reach it when a lower level answers misses later. The
    timestamp counters implement the recency list of each set. In standalone mode
    (internal/capabilities/cache/set_associative_cache.go) every miss is filled at once, and
    then more ways never hit less. */
module CacheRuns {
  import D = Directory
  import opened Arithmetic
  import opened Recency
  import opened SetAssociative

  /** A block is filled in a state that a lookup finds. */
  type FillState = st: D.LineState | st != D.Invalid witness D.Exclusive

  datatype Op =
    | AccessOp(addr: nat, isWrite: bool)
    | FillOp(addr: nat, state: FillState)

  function Apply(g: Geometry, c: Cache, op: Op): (c': Cache)
    requires Shaped(g, c)
    ensures Shaped(g, c')
  {
    match op
    case AccessOp(addr, isWrite) => Access(g, c, addr, isWrite).0
    case FillOp(addr, state) => Fill(g, c, addr, state).0
  }

  function After(g: Geometry, ops: seq<Op>): (c: Cache)
    ensures Shaped(g, c)
  {
    if ops == [] then New(g) else Apply(g, After(g, ops[..|ops| - 1]), ops[|ops| - 1])
  }

  // ------------------------------------------------ the reference

  /** What an operation does to the recency list of its set: an access moves its block to
      the front if it is there, and a fill uses the list. */
  function Listed(g: Geometry, list: seq<int>, op: Op): seq<int> {
    var block := BlockAddr(g, op.addr);
    match op
    case AccessOp(_, _) => if block in list then ToFront(list, block) else list
    case FillOp(_, _) => Use(list, g.numWays, block).0
  }

  /** The recency list of set `s` after a run. */
  function RecencyList(g: Geometry, ops: seq<Op>, s: nat): seq<int> {
    if ops == [] then []
    else
      var list := RecencyList(g, ops[..|ops| - 1], s);
      if SetIndex(g, ops[|ops| - 1].addr) == s then Listed(g, list, ops[|ops| - 1]) else list
  }

  /** The state a block was last put in: filled in, or written. */
  function LastState(g: Geometry, ops: seq<Op>, block: nat): D.LineState {
    if ops == [] then D.Invalid
    else
      var before, op := LastState(g, ops[..|ops| - 1], block), ops[|ops| - 1];
      if BlockAddr(g, op.addr) != block then before
      else match op
        case AccessOp(_, isWrite) => if isWrite then D.Modified else before
        case FillOp(_, state) => state
  }

  // ------------------------------------------------ one operation

  /** Set `s` holds exactly the blocks of the list, and its counters order them so. */
  ghost predicate SetRefines(g: Geometry, c: Cache, s: nat, list: seq<int>)
    requires Shaped(g, c) && s < g.numSets
  {
    exists ws :: InOrder(c.rows[s], c.clock, ws) && Blocks(c.rows[s], ws) == list
  }

  /** How an address is cut: `offset` in its block, then the set, then the tag. Every address
      is of this form, in one way. */
  lemma AddressParts(g: Geometry, offset: nat, set_: nat, tag: nat)
    requires offset < g.blockSize && set_ < g.numSets
    ensures var block := tag * g.numSets + set_;
            && SetIndex(g, block * g.blockSize + offset) == set_
            && BlockAddr(g, block * g.blockSize + offset) == block * g.blockSize
  {
    var block := tag * g.numSets + set_;
    var addr := block * g.blockSize + offset;
    assert addr == (addr / g.blockSize) * g.blockSize + addr % g.blockSize;
    DigitsAgree(addr / g.blockSize, addr % g.blockSize, block, offset, g.blockSize);
    DivisionIsUnique(block, g.numSets, tag, set_);
  }

  lemma BlockOfBlock(g: Geometry, addr: nat)
    ensures BlockAddr(g, BlockAddr(g, addr)) == BlockAddr(g, addr)
    ensures SetIndex(g, BlockAddr(g, addr)) == SetIndex(g, addr)
  {
    var q := addr / g.blockSize;
    QuotientOfProduct(q, g.blockSize);
  }

  /** An operation on another set leaves a set's order alone. */
  lemma OtherSetsRefine(g: Geometry, c: Cache, op: Op, s: nat, list: seq<int>)
    requires Shaped(g, c) && s < g.numSets && s != SetIndex(g, op.addr) && SetRefines(g, c, s, list)
    ensures SetRefines(g, Apply(g, c, op), s, list)
  {
    var c' := Apply(g, c, op);
    var ws :| InOrder(c.rows[s], c.clock, ws) && Blocks(c.rows[s], ws) == list;
    assert c'.rows[s] == c.rows[s] && c'.clock >= c.clock;
    assert InOrder(c'.rows[s], c'.clock, ws);
  }

  /** A set with a new row refines the list of that row. */
  lemma RefinesBy(g: Geometry, c: Cache, s: nat, row: Row, ws: seq<nat>)
    requires Shaped(g, c) && s < g.numSets && RowShaped(g, row) && InOrder(row, c.clock + 1, ws)
    ensures SetRefines(g, Cache(c.rows[s := row], c.clock + 1), s, Blocks(row, ws))
  {
    var c' := Cache(c.rows[s := row], c.clock + 1);
    assert c'.rows[s] == row && InOrder(c'.rows[s], c'.clock, ws);
  }

  /** A way of a block on the list is used, with the block in some valid state. */
  lemma UsingRefines(g: Geometry, c: Cache, s: nat, ws: seq<nat>, i: nat, state: D.LineState)
    requires Shaped(g, c) && s < g.numSets && InOrder(c.rows[s], c.clock, ws) && i < |ws| && state != D.Invalid
    ensures var row, block := c.rows[s], c.rows[s].lines[ws[i]].addr;
            SetRefines(g, Cache(c.rows[s := UseWay(row, ws[i], Line(block, state), c.clock + 1)], c.clock + 1), s,
                       ToFront(Blocks(row, ws), block))
  {
    hide ToFront, SetRefines;
    var row := c.rows[s];
    UseKnownWay(row, c.clock, ws, i, state);
    RefinesBy(g, c, s, UseWay(row, ws[i], Line(row.lines[ws[i]].addr, state), c.clock + 1),
              [ws[i]] + (ws[..i] + ws[i + 1..]));
  }

  lemma AccessOfKnown(g: Geometry, c: Cache, addr: nat, isWrite: bool)
    requires Shaped(g, c) && FindWay(c.rows[SetIndex(g, addr)].lines, BlockAddr(g, addr)) < g.numWays
    ensures var s, block := SetIndex(g, addr), BlockAddr(g, addr);
            var w := FindWay(c.rows[s].lines, block);
            var state := if isWrite then D.Modified else c.rows[s].lines[w].state;
            && c.rows[s].lines[w].addr == block && state != D.Invalid
            && Access(g, c, addr, isWrite) ==
               (Cache(c.rows[s := UseWay(c.rows[s], w, Line(block, state), c.clock + 1)], c.clock + 1), true)
  {
  }

  /** An access hits if and only if its block is on the list, and then moves it to the
      front. */
  lemma AccessRefines(g: Geometry, c: Cache, addr: nat, isWrite: bool, list: seq<int>)
    requires Shaped(g, c) && SetRefines(g, c, SetIndex(g, addr), list)
    ensures var (c', hit) := Access(g, c, addr, isWrite);
            && (hit <==> BlockAddr(g, addr) in list)
            && SetRefines(g, c', SetIndex(g, addr), Listed(g, list, AccessOp(addr, isWrite)))
  {
    var s, block := SetIndex(g, addr), BlockAddr(g, addr);
    var row := c.rows[s];
    var ws :| InOrder(row, c.clock, ws) && Blocks(row, ws) == list;
    FindWayFinds(row, c.clock, ws, block);
    hide InOrder, Blocks, SetRefines, ToFront, SetIndex, BlockAddr, FindWay;
    var w := FindWay(row.lines, block);
    if w < g.numWays {
      var i :| 0 <= i < |ws| && ws[i] == w;
      AccessOfKnown(g, c, addr, isWrite);
      UsingRefines(g, c, s, ws, i, if isWrite then D.Modified else row.lines[w].state);
    }
  }

  lemma WayOfFill(g: Geometry, c: Cache, addr: nat, state: FillState)
    requires Shaped(g, c)
    ensures var s, block := SetIndex(g, addr), BlockAddr(g, addr);
            var row := c.rows[s];
            var found := FindWay(row.lines, block);
            && (found < g.numWays ==> row.lines[found].addr == block)
            && Fill(g, c, addr, state).0 ==
               Cache(c.rows[s := UseWay(row, if found < g.numWays then found else LruWay(row.counters, g.numWays),
                                        Line(block, state), c.clock + 1)], c.clock + 1)
  {
  }

  lemma FillOfNew(g: Geometry, c: Cache, addr: nat, state: FillState, ws: seq<nat>)
    requires Shaped(g, c) && InOrder(c.rows[SetIndex(g, addr)], c.clock, ws)
    requires FindWay(c.rows[SetIndex(g, addr)].lines, BlockAddr(g, addr)) == g.numWays
    requires BlockAddr(g, addr) !in Blocks(c.rows[SetIndex(g, addr)], ws)
    ensures var list := Blocks(c.rows[SetIndex(g, addr)], ws);
            SetRefines(g, Fill(g, c, addr, state).0, SetIndex(g, addr), Take([BlockAddr(g, addr) as int] + list, g.numWays))
  {
    WayOfFill(g, c, addr, state);
    hide Fill, SetIndex, BlockAddr, FindWay, SetRefines, LruWay;
    var s, block := SetIndex(g, addr), BlockAddr(g, addr);
    var w := LruWay(c.rows[s].counters, g.numWays);
    UseNewWay(c.rows[s], c.clock, ws, block, state);
    RefinesBy(g, c, s, UseWay(c.rows[s], w, Line(block, state), c.clock + 1), AfterFill(ws, g.numWays, w));
  }

  lemma FillOfListed(g: Geometry, c: Cache, addr: nat, state: FillState, ws: seq<nat>, i: nat)
    requires Shaped(g, c) && InOrder(c.rows[SetIndex(g, addr)], c.clock, ws) && i < |ws|
    requires ws[i] == FindWay(c.rows[SetIndex(g, addr)].lines, BlockAddr(g, addr))
    ensures var list := Blocks(c.rows[SetIndex(g, addr)], ws);
            SetRefines(g, Fill(g, c, addr, state).0, SetIndex(g, addr), ToFront(list, BlockAddr(g, addr)))
  {
    WayOfFill(g, c, addr, state);
    hide Fill, SetIndex, BlockAddr, FindWay, SetRefines, LruWay, ToFront;
    UsingRefines(g, c, SetIndex(g, addr), ws, i, state);
  }

  /** A fill uses the list: a block that is not on it drops the last one of a full set. */
  lemma FillRefines(g: Geometry, c: Cache, addr: nat, state: FillState, list: seq<int>)
    requires Shaped(g, c) && SetRefines(g, c, SetIndex(g, addr), list)
    ensures SetRefines(g, Fill(g, c, addr, state).0, SetIndex(g, addr), Listed(g, list, FillOp(addr, state)))
  {
    var s, block := SetIndex(g, addr), BlockAddr(g, addr);
    var row := c.rows[s];
    var ws :| InOrder(row, c.clock, ws) && Blocks(row, ws) == list;
    FindWayFinds(row, c.clock, ws, block);
    hide Fill, SetIndex, BlockAddr, FindWay, SetRefines, InOrder, Blocks, ToFront, Take;
    assert Listed(g, list, FillOp(addr, state)) == if block in list then ToFront(list, block) else Take([block as int] + list, g.numWays);
    hide Listed, Use;
    if block in list {
      var i :| 0 <= i < |ws| && ws[i] == FindWay(row.lines, block);
      FillOfListed(g, c, addr, state, ws, i);
    } else {
      FillOfNew(g, c, addr, state, ws);
    }
  }

  lemma OpRefines(g: Geometry, c: Cache, op: Op, s: nat, list: seq<int>)
    requires Shaped(g, c) && s < g.numSets && SetRefines(g, c, s, list)
    ensures SetRefines(g, Apply(g, c, op), s, if SetIndex(g, op.addr) == s then Listed(g, list, op) else list)
  {
    hide SetRefines, Access, Fill;
    if SetIndex(g, op.addr) != s {
      OtherSetsRefine(g, c, op, s, list);
    } else {
      match op
      case AccessOp(addr, isWrite) => AccessRefines(g, c, addr, isWrite, list);
      case FillOp(addr, state) => FillRefines(g, c, addr, state, list);
    }
  }

  // ------------------------------------------------ whole runs

  lemma NewIsEmpty(g: Geometry, s: nat)
    requires s < g.numSets
    ensures SetRefines(g, New(g), s, [])
  {
    assert InOrder(New(g).rows[s], 0, []);
    assert Blocks(New(g).rows[s], []) == [];
  }

  /** LRU refinement. After any run of accesses and fills, in any order, each set holds the
      blocks of its recency list, in the order of its counters. */
  lemma {:induction false} CountersImplementLru(g: Geometry, ops: seq<Op>, s: nat)
    requires s < g.numSets
    ensures SetRefines(g, After(g, ops), s, RecencyList(g, ops, s))
    decreases |ops|
  {
    hide SetRefines, New, Apply, Listed;
    if ops == [] {
      NewIsEmpty(g, s);
    } else {
      var n := |ops| - 1;
      CountersImplementLru(g, ops[..n], s);
      OpRefines(g, After(g, ops[..n]), ops[n], s, RecencyList(g, ops[..n], s));
    }
  }

  predicate Present(g: Geometry, c: Cache, addr: nat)
    requires Shaped(g, c)
  {
    FindWay(c.rows[SetIndex(g, addr)].lines, BlockAddr(g, addr)) < g.numWays
  }

  /** What is in the cache is what the recency list of its set says, and an access hits
      exactly then. */
  lemma PresentMeansRecent(g: Geometry, ops: seq<Op>, addr: nat, isWrite: bool)
    ensures Present(g, After(g, ops), addr) <==> BlockAddr(g, addr) in RecencyList(g, ops, SetIndex(g, addr))
    ensures Access(g, After(g, ops), addr, isWrite).1 <==> Present(g, After(g, ops), addr)
  {
    var s, c := SetIndex(g, addr), After(g, ops);
    CountersImplementLru(g, ops, s);
    var ws :| InOrder(c.rows[s], c.clock, ws) && Blocks(c.rows[s], ws) == RecencyList(g, ops, s);
    FindWayFinds(c.rows[s], c.clock, ws, BlockAddr(g, addr));
  }

  // ------------------------------------------------ states and evictions

  /** The valid lines of set `s` are blocks of that set, each in the state it was last put
      in. */
  ghost predicate StatesAreLast(g: Geometry, c: Cache, ops: seq<Op>, s: nat)
    requires Shaped(g, c) && s < g.numSets
  {
    forall w :: 0 <= w < g.numWays && c.rows[s].lines[w].Line? && c.rows[s].lines[w].state != D.Invalid ==>
      && SetIndex(g, c.rows[s].lines[w].addr) == s
      && c.rows[s].lines[w].state == LastState(g, ops, c.rows[s].lines[w].addr)
  }

  /** No two ways hold the same block. */
  lemma OneWayEach(r: Row, clock: nat, ws: seq<nat>, w: nat, x: nat)
    requires InOrder(r, clock, ws) && w < |r.lines| && x < |r.lines| && w != x
    requires r.lines[w].Line? && r.lines[x].Line?
    ensures r.lines[w].addr != r.lines[x].addr
  {
    var i :| 0 <= i < |ws| && ws[i] == w;
    var j :| 0 <= j < |ws| && ws[j] == x;
    if i < j {
      assert r.lines[ws[i]].addr != r.lines[ws[j]].addr;
    } else {
      assert r.lines[ws[j]].addr != r.lines[ws[i]].addr;
    }
  }

  /** After an operation on set `s` the block of the operation is in at most one way, which
      is the one that was used, and the other ways are as they were. */
  lemma OnlyOneWayChanges(g: Geometry, c: Cache, op: Op, list: seq<int>, x: nat)
    requires Shaped(g, c) && SetRefines(g, c, SetIndex(g, op.addr), list) && x < g.numWays
    ensures var s, block := SetIndex(g, op.addr), BlockAddr(g, op.addr);
            var was, now := c.rows[s].lines[x], Apply(g, c, op).rows[s].lines[x];
            || (now == was && !Holds(was, block))
            || (now == Line(block, if op.FillOp? then op.state else if op.isWrite then D.Modified else now.state)
                && (op.AccessOp? && !op.isWrite ==> now == was))
  {
    var s, block := SetIndex(g, op.addr), BlockAddr(g, op.addr);
    var row := c.rows[s];
    var ws :| InOrder(row, c.clock, ws) && Blocks(row, ws) == list;
    var w := FindWay(row.lines, block);
    if w < g.numWays && x != w && row.lines[x].Line? {
      OneWayEach(row, c.clock, ws, w, x);
    }
  }

  lemma {:induction false} RunKeepsStates(g: Geometry, ops: seq<Op>, s: nat)
    requires s < g.numSets
    ensures StatesAreLast(g, After(g, ops), ops, s)
    decreases |ops|
  {
    if ops != [] {
      var n := |ops| - 1;
      var c, op := After(g, ops[..n]), ops[n];
      RunKeepsStates(g, ops[..n], s);
      CountersImplementLru(g, ops[..n], SetIndex(g, op.addr));
      BlockOfBlock(g, op.addr);
      hide SetRefines, SetIndex, BlockAddr;
      if SetIndex(g, op.addr) == s {
        forall x | 0 <= x < g.numWays && After(g, ops).rows[s].lines[x].Line? && After(g, ops).rows[s].lines[x].state != D.Invalid
          ensures SetIndex(g, After(g, ops).rows[s].lines[x].addr) == s
          ensures After(g, ops).rows[s].lines[x].state == LastState(g, ops, After(g, ops).rows[s].lines[x].addr)
        {
          OnlyOneWayChanges(g, c, op, RecencyList(g, ops[..n], s), x);
        }
      } else {
        assert After(g, ops).rows[s] == c.rows[s];
      }
    }
  }

  lemma FillOfUnknown(g: Geometry, c: Cache, addr: nat, state: FillState)
    requires Shaped(g, c) && FindWay(c.rows[SetIndex(g, addr)].lines, BlockAddr(g, addr)) == g.numWays
    ensures var row := c.rows[SetIndex(g, addr)];
            var (_, evicted, dirty) := Fill(g, c, addr, state);
            var line := row.lines[LruWay(row.counters, g.numWays)];
            if line == Empty then evicted == 0 && !dirty
            else evicted == line.addr && dirty == (line.state == D.Modified)
  {
  }

  /** What a fill evicts from a set that refines the list. */
  lemma FillEvictsTheLast(g: Geometry, c: Cache, addr: nat, state: FillState, list: seq<int>)
    requires Shaped(g, c) && SetRefines(g, c, SetIndex(g, addr), list)
    ensures var (_, evicted, dirty) := Fill(g, c, addr, state);
            if BlockAddr(g, addr) in list || |list| < g.numWays then evicted == 0 && !dirty
            else
              && |list| == g.numWays && evicted == list[|list| - 1]
              && exists w :: 0 <= w < g.numWays && var line := c.rows[SetIndex(g, addr)].lines[w];
                             line.Line? && line.state != D.Invalid && line.addr == evicted && dirty == (line.state == D.Modified)
  {
    var row := c.rows[SetIndex(g, addr)];
    var ws :| InOrder(row, c.clock, ws) && Blocks(row, ws) == list;
    FindWayFinds(row, c.clock, ws, BlockAddr(g, addr));
    LruWayIsLast(row, c.clock, ws);
    assert |list| == |ws|;
    if FindWay(row.lines, BlockAddr(g, addr)) == g.numWays {
      FillOfUnknown(g, c, addr, state);
      if |ws| == g.numWays {
        var last := ws[|ws| - 1];
        assert list[|ws| - 1] == row.lines[last].addr;
        assert row.lines[last].Line? && row.lines[last].state != D.Invalid;
        hide Fill, InOrder, SetRefines, FindWay;
      }
    }
  }

  /** True LRU. After any run of accesses and fills, a block that is filled takes the place
      of another one only if it is not there and its set is full; then the evicted block is
      the one at the end of the recency list, the one used longest ago, and it is to be
      written back if and only if the last thing that happened to it was a write, or a fill
      in the modified state. */
  lemma EvictionsAreLeastRecent(g: Geometry, ops: seq<Op>, addr: nat, state: FillState)
    ensures var list := RecencyList(g, ops, SetIndex(g, addr));
            var (_, evicted, dirty) := Fill(g, After(g, ops), addr, state);
            if BlockAddr(g, addr) in list || |list| < g.numWays then evicted == 0 && !dirty
            else
              && |list| == g.numWays && evicted == list[|list| - 1]
              && dirty == (LastState(g, ops, evicted) == D.Modified)
  {
    var s := SetIndex(g, addr);
    CountersImplementLru(g, ops, s);
    RunKeepsStates(g, ops, s);
    hide SetRefines, Fill;
    FillEvictsTheLast(g, After(g, ops), addr, state, RecencyList(g, ops, s));
  }
}
