/** The cache in standalone mode (internal/capabilities/cache/set_associative_cache.go), where
    every miss is filled at once: a special case of the runs of module CacheRuns, in which
    the recency list is that of plain LRU, and more ways never hit less. */
module StandaloneRuns {
  import D = Directory
  import opened Recency
  import opened SetAssociative
  import opened CacheRuns

  /** Access, and on a miss handleMiss and HandleFill. */
  function StandaloneAccess(g: Geometry, c: Cache, addr: nat, isWrite: bool): (r: (Cache, bool))
    requires Shaped(g, c)
    ensures Shaped(g, r.0)
  {
    var (c', hit) := Access(g, c, addr, isWrite);
    if hit then (c', true) else (Fill(g, c', BlockAddr(g, addr), D.Exclusive).0, false)
  }

  datatype Request = Request(addr: nat, isWrite: bool)

  function Run(g: Geometry, requests: seq<Request>): (c: Cache)
    ensures Shaped(g, c)
  {
    if requests == [] then New(g)
    else
      var n := |requests| - 1;
      StandaloneAccess(g, Run(g, requests[..n]), requests[n].addr, requests[n].isWrite).0
  }

  function RunHits(g: Geometry, requests: seq<Request>): nat {
    if requests == [] then 0
    else
      var n := |requests| - 1;
      RunHits(g, requests[..n]) +
      if StandaloneAccess(g, Run(g, requests[..n]), requests[n].addr, requests[n].isWrite).1 then 1 else 0
  }

  /** The blocks of set `s` that the requests touch, in order. */
  function Touched(g: Geometry, requests: seq<Request>, s: nat): seq<int> {
    if requests == [] then []
    else
      var n := |requests| - 1;
      Touched(g, requests[..n], s) +
      if SetIndex(g, requests[n].addr) == s then [BlockAddr(g, requests[n].addr)] else []
  }

  /** The accesses and fills of the requests. */
  function OpsOf(g: Geometry, requests: seq<Request>): seq<Op> {
    if requests == [] then []
    else
      var n := |requests| - 1;
      var r := requests[n];
      OpsOf(g, requests[..n]) + OpsOfOne(r, g, Access(g, Run(g, requests[..n]), r.addr, r.isWrite).1)
  }

  function OpsOfOne(r: Request, g: Geometry, hit: bool): seq<Op> {
    [AccessOp(r.addr, r.isWrite)] + if hit then [] else [FillOp(BlockAddr(g, r.addr), D.Exclusive)]
  }

  lemma AfterOne(g: Geometry, ops: seq<Op>, op: Op, s: nat)
    ensures After(g, ops + [op]) == Apply(g, After(g, ops), op)
    ensures RecencyList(g, ops + [op], s) ==
            if SetIndex(g, op.addr) == s then Listed(g, RecencyList(g, ops, s), op) else RecencyList(g, ops, s)
  {
    assert (ops + [op])[..|ops|] == ops;
  }

  /** The operations of one request lead where the request leads, and use the list. */
  lemma OneRequest(g: Geometry, ops: seq<Op>, r: Request, s: nat)
    ensures var hit := Access(g, After(g, ops), r.addr, r.isWrite).1;
            && After(g, ops + OpsOfOne(r, g, hit)) == StandaloneAccess(g, After(g, ops), r.addr, r.isWrite).0
            && RecencyList(g, ops + OpsOfOne(r, g, hit), s) ==
               if SetIndex(g, r.addr) == s then Use(RecencyList(g, ops, s), g.numWays, BlockAddr(g, r.addr)).0
               else RecencyList(g, ops, s)
  {
    var op, fill := AccessOp(r.addr, r.isWrite), FillOp(BlockAddr(g, r.addr), D.Exclusive);
    var hit := Access(g, After(g, ops), r.addr, r.isWrite).1;
    AfterOne(g, ops, op, s);
    AfterOne(g, ops + [op], fill, s);
    BlockOfBlock(g, r.addr);
    PresentMeansRecent(g, ops, r.addr, r.isWrite);
    hide Access, Fill, RecencyList, SetIndex, BlockAddr, Use;
    if hit {
      assert ops + OpsOfOne(r, g, hit) == ops + [op];
    } else {
      assert ops + OpsOfOne(r, g, hit) == (ops + [op]) + [fill];
    }
    UseOfList(g, RecencyList(g, ops, s), r);
  }

  /** An access that fills on a miss is one use of the list. */
  lemma UseOfList(g: Geometry, list: seq<int>, r: Request)
    ensures var accessed := Listed(g, list, AccessOp(r.addr, r.isWrite));
            var used := Use(list, g.numWays, BlockAddr(g, r.addr)).0;
            if BlockAddr(g, r.addr) in list then used == accessed
            else accessed == list && used == Listed(g, list, FillOp(BlockAddr(g, r.addr), D.Exclusive))
  {
    BlockOfBlock(g, r.addr);
  }

  /** A standalone run is a run of accesses and fills, and its recency list is that of LRU on
      the blocks touched. */
  lemma {:induction false} StandaloneIsLru(g: Geometry, requests: seq<Request>, s: nat)
    ensures Run(g, requests) == After(g, OpsOf(g, requests))
    ensures RecencyList(g, OpsOf(g, requests), s) == Lru(g.numWays, Touched(g, requests, s))
    decreases |requests|
  {
    if requests != [] {
      var n := |requests| - 1;
      StandaloneIsLru(g, requests[..n], s);
      OneRequest(g, OpsOf(g, requests[..n]), requests[n], s);
      hide StandaloneAccess, After, RecencyList, Use, Access, SetIndex, BlockAddr, Lru;
      LruOfOneMore(g, requests, s);
    }
  }

  lemma LruOfOneMore(g: Geometry, requests: seq<Request>, s: nat)
    requires requests != []
    ensures var n := |requests| - 1;
            var list := Lru(g.numWays, Touched(g, requests[..n], s));
            Lru(g.numWays, Touched(g, requests, s)) ==
            if SetIndex(g, requests[n].addr) == s then Use(list, g.numWays, BlockAddr(g, requests[n].addr)).0 else list
  {
    hide Use, SetIndex, BlockAddr, Lru;
    var n := |requests| - 1;
    if SetIndex(g, requests[n].addr) == s {
      LruSnoc(g.numWays, Touched(g, requests[..n], s), BlockAddr(g, requests[n].addr));
    } else {
      assert Touched(g, requests, s) == Touched(g, requests[..n], s);
    }
  }

  lemma HeldMeansListed(g: Geometry, requests: seq<Request>, addr: nat)
    ensures Present(g, Run(g, requests), addr) <==>
            BlockAddr(g, addr) in Lru(g.numWays, Touched(g, requests, SetIndex(g, addr)))
  {
    StandaloneIsLru(g, requests, SetIndex(g, addr));
    PresentMeansRecent(g, OpsOf(g, requests), addr, false);
  }

  lemma {:induction false} TouchedIgnoresWays(g: Geometry, g': Geometry, requests: seq<Request>, s: nat)
    requires g'.numSets == g.numSets && g'.blockSize == g.blockSize
    ensures Touched(g, requests, s) == Touched(g', requests, s)
    decreases |requests|
  {
    if requests != [] {
      TouchedIgnoresWays(g, g', requests[..|requests| - 1], s);
    }
  }

  /** Stack inclusion: for any run, what a cache holds is also held by one with more ways. */
  lemma MoreWaysHoldMore(g: Geometry, g': Geometry, requests: seq<Request>, addr: nat)
    requires g'.numSets == g.numSets && g'.blockSize == g.blockSize && g.numWays <= g'.numWays
    requires Present(g, Run(g, requests), addr)
    ensures Present(g', Run(g', requests), addr)
  {
    var s := SetIndex(g, addr);
    HeldMeansListed(g, requests, addr);
    HeldMeansListed(g', requests, addr);
    TouchedIgnoresWays(g, g', requests, s);
    Inclusion(g.numWays, g'.numWays, Touched(g, requests, s), BlockAddr(g, addr));
  }

  /** So hits never decrease as the number of ways grows. */
  lemma {:induction false} MoreWaysHitMore(g: Geometry, g': Geometry, requests: seq<Request>)
    requires g'.numSets == g.numSets && g'.blockSize == g.blockSize && g.numWays <= g'.numWays
    ensures RunHits(g, requests) <= RunHits(g', requests)
    decreases |requests|
  {
    if requests != [] {
      var n := |requests| - 1;
      MoreWaysHitMore(g, g', requests[..n]);
      if Present(g, Run(g, requests[..n]), requests[n].addr) {
        MoreWaysHoldMore(g, g', requests[..n], requests[n].addr);
      }
    }
  }
}
