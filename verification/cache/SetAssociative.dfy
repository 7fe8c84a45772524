/** SetAssociativeCache (internal/components/cache/set_associative.go): sets of ways with a
    counter per way, which updateLRU draws from one clock. */
module SetAssociative {
  import D = Directory
  import opened Recency

  datatype Slot = Empty | Line(addr: nat, state: D.LineState)

  /** The ways of one set. */
  datatype Row = Row(lines: seq<Slot>, counters: seq<nat>)

  datatype Cache = Cache(rows: seq<Row>, clock: nat)

  /** NewSetAssociativeCache replaces what is not positive by defaults. */
  datatype RawGeometry = Geometry(numSets: nat, numWays: nat, blockSize: nat)
  type Geometry = g: RawGeometry | g.numSets > 0 && g.numWays > 0 && g.blockSize > 0 witness Geometry(64, 4, 64)

  function SetIndex(g: Geometry, addr: nat): (s: nat)
    ensures s < g.numSets
  {
    (addr / g.blockSize) % g.numSets
  }

  function BlockAddr(g: Geometry, addr: nat): nat {
    (addr / g.blockSize) * g.blockSize
  }

  predicate Shaped(g: Geometry, c: Cache) {
    |c.rows| == g.numSets && forall s :: 0 <= s < |c.rows| ==> RowShaped(g, c.rows[s])
  }

  predicate RowShaped(g: Geometry, r: Row) {
    |r.lines| == g.numWays && |r.counters| == g.numWays
  }

  function New(g: Geometry): (c: Cache)
    ensures Shaped(g, c)
  {
    Cache(seq(g.numSets, _ => Row(seq(g.numWays, _ => Empty), seq(g.numWays, _ => 0))), 0)
  }

  predicate Holds(slot: Slot, block: nat) {
    slot.Line? && slot.addr == block && slot.state != D.Invalid
  }

  /** findWay: the first way that holds the block, or the number of ways. */
  function FindWay(lines: seq<Slot>, block: nat): (w: nat)
    ensures w <= |lines|
    ensures w < |lines| ==> Holds(lines[w], block)
    ensures forall i :: 0 <= i < w ==> !Holds(lines[i], block)
  {
    if lines == [] || Holds(lines[0], block) then 0 else 1 + FindWay(lines[1..], block)
  }

  /** findLRUWay over the first n ways: the first of the smallest counters. */
  function LruWay(counters: seq<nat>, n: nat): (w: nat)
    requires 0 < n <= |counters|
    ensures w < n
  {
    if n == 1 then 0
    else
      var w := LruWay(counters, n - 1);
      if counters[n - 1] < counters[w] then n - 1 else w
  }

  lemma {:induction false} LruWayIsSmallest(counters: seq<nat>, n: nat)
    requires 0 < n <= |counters|
    ensures forall i :: 0 <= i < n ==> counters[LruWay(counters, n)] <= counters[i]
    ensures forall i :: 0 <= i < LruWay(counters, n) ==> counters[LruWay(counters, n)] < counters[i]
  {
    if n > 1 {
      LruWayIsSmallest(counters, n - 1);
    }
  }

  /** A way gets new contents and becomes the most recently used. */
  function UseWay(r: Row, w: nat, line: Slot, clock: nat): Row
    requires w < |r.lines| && |r.counters| == |r.lines|
  {
    Row(r.lines[w := line], r.counters[w := clock])
  }

  function Access(g: Geometry, c: Cache, addr: nat, isWrite: bool): (r: (Cache, bool))
    requires Shaped(g, c)
    ensures Shaped(g, r.0)
  {
    var s := SetIndex(g, addr);
    var w := FindWay(c.rows[s].lines, BlockAddr(g, addr));
    if w == g.numWays then (c, false)
    else
      var line := c.rows[s].lines[w];
      var line' := if isWrite then line.(state := D.Modified) else line;
      (Cache(c.rows[s := UseWay(c.rows[s], w, line', c.clock + 1)], c.clock + 1), true)
  }

  /** The evicted address, 0 if there is none, and whether it has to be written back. */
  function Fill(g: Geometry, c: Cache, addr: nat, state: D.LineState): (r: (Cache, nat, bool))
    requires Shaped(g, c)
    ensures Shaped(g, r.0)
  {
    var s, block := SetIndex(g, addr), BlockAddr(g, addr);
    var row := c.rows[s];
    var found := FindWay(row.lines, block);
    var w := if found < g.numWays then found else LruWay(row.counters, g.numWays);
    var c' := Cache(c.rows[s := UseWay(row, w, Line(block, state), c.clock + 1)], c.clock + 1);
    if found < g.numWays || row.lines[w] == Empty then (c', 0, false)
    else (c', row.lines[w].addr, row.lines[w].state == D.Modified)
  }

  // ------------------------------------------------ counters implement recency

  predicate Usable(r: Row, ws: seq<nat>) {
    forall i :: 0 <= i < |ws| ==> ws[i] < |r.lines| && r.lines[ws[i]].Line? && r.lines[ws[i]].state != D.Invalid
  }

  predicate Descending(r: Row, ws: seq<nat>)
    requires Usable(r, ws) && |r.counters| == |r.lines|
  {
    forall i, j :: 0 <= i < j < |ws| ==>
      r.counters[ws[i]] > r.counters[ws[j]] && r.lines[ws[i]].addr != r.lines[ws[j]].addr
  }

  predicate Clocked(r: Row, clock: nat)
    requires |r.counters| == |r.lines|
  {
    forall w :: 0 <= w < |r.lines| ==> r.counters[w] <= clock && (r.lines[w].Line? <==> r.counters[w] > 0)
  }

  predicate Covers(r: Row, ws: seq<nat>) {
    forall w :: 0 <= w < |r.lines| && r.lines[w].Line? ==> w in ws
  }

  /** `ws` lists the occupied ways, most recently used first. */
  ghost predicate InOrder(r: Row, clock: nat, ws: seq<nat>) {
    |r.counters| == |r.lines| && Usable(r, ws) && Descending(r, ws) && Clocked(r, clock) && Covers(r, ws)
  }

  lemma OrderIsDistinct(r: Row, clock: nat, ws: seq<nat>)
    requires InOrder(r, clock, ws)
    ensures Distinct(ws)
  {
  }

  function Blocks(r: Row, ws: seq<nat>): seq<int>
    requires Usable(r, ws)
  {
    seq(|ws|, i requires 0 <= i < |ws| => r.lines[ws[i]].addr)
  }

  lemma BlocksAreDistinct(r: Row, clock: nat, ws: seq<nat>)
    requires InOrder(r, clock, ws)
    ensures Distinct(Blocks(r, ws))
  {
  }

  /** findWay finds a block if and only if it is on the list. */
  lemma FindWayFinds(r: Row, clock: nat, ws: seq<nat>, block: nat)
    requires InOrder(r, clock, ws)
    ensures FindWay(r.lines, block) < |r.lines| <==> block in Blocks(r, ws)
    ensures FindWay(r.lines, block) < |r.lines| ==>
              exists i :: 0 <= i < |ws| && ws[i] == FindWay(r.lines, block) && Blocks(r, ws)[i] == block
  {
    var w := FindWay(r.lines, block);
    if w < |r.lines| {
      var i :| 0 <= i < |ws| && ws[i] == w;
      assert Blocks(r, ws)[i] == block;
    }
    assert forall i :: 0 <= i < |ws| && Blocks(r, ws)[i] == block ==> Holds(r.lines[ws[i]], block);
  }

  /** `kept` is `ws` without way `w`, in the same order. */
  predicate Rest(ws: seq<nat>, w: nat, kept: seq<nat>) {
    (forall x :: x in ws && x != w ==> x in kept) && (forall j :: 0 <= j < |kept| ==> kept[j] != w)
  }

  predicate NoneHas(r: Row, kept: seq<nat>, addr: nat)
    requires Usable(r, kept)
  {
    forall i :: 0 <= i < |kept| ==> r.lines[kept[i]].addr != addr
  }

  lemma FrontIsUsable(r: Row, w: nat, line: Slot, clock: nat, kept: seq<nat>)
    requires |r.counters| == |r.lines| && w < |r.lines| && line.Line? && line.state != D.Invalid && Usable(r, kept)
    requires forall j :: 0 <= j < |kept| ==> kept[j] != w
    ensures Usable(UseWay(r, w, line, clock), [w] + kept)
    ensures Blocks(UseWay(r, w, line, clock), [w] + kept) == [line.addr] + Blocks(r, kept)
  {
    var r', ws' := UseWay(r, w, line, clock), [w] + kept;
    assert forall i :: 1 <= i < |ws'| ==> ws'[i] == kept[i - 1] && r'.lines[ws'[i]] == r.lines[kept[i - 1]];
  }

  lemma FrontIsDescending(r: Row, w: nat, line: Slot, clock: nat, kept: seq<nat>)
    requires |r.counters| == |r.lines| && w < |r.lines| && line.Line? && line.state != D.Invalid && Usable(r, kept)
    requires forall j :: 0 <= j < |kept| ==> kept[j] != w
    requires Descending(r, kept) && Clocked(r, clock) && NoneHas(r, kept, line.addr)
    requires Usable(UseWay(r, w, line, clock + 1), [w] + kept)
    ensures Descending(UseWay(r, w, line, clock + 1), [w] + kept)
  {
    var r', ws' := UseWay(r, w, line, clock + 1), [w] + kept;
    forall i, j | 0 <= i < j < |ws'|
      ensures r'.counters[ws'[i]] > r'.counters[ws'[j]] && r'.lines[ws'[i]].addr != r'.lines[ws'[j]].addr
    {
      assert ws'[j] == kept[j - 1];
      if i > 0 {
        assert ws'[i] == kept[i - 1];
      }
    }
  }

  lemma FrontCovers(r: Row, w: nat, line: Slot, clock: nat, ws: seq<nat>, kept: seq<nat>)
    requires |r.counters| == |r.lines| && w < |r.lines| && Covers(r, ws) && Rest(ws, w, kept)
    ensures Covers(UseWay(r, w, line, clock), [w] + kept)
  {
    var r', ws' := UseWay(r, w, line, clock), [w] + kept;
    forall x: nat | x < |r'.lines| && r'.lines[x].Line?
      ensures x in ws'
    {
      if x != w {
        assert x in ws && x in kept;
      }
    }
  }

  /** Way `w` goes to the front of the others, `kept`, with a line that none of them has. */
  lemma UseWayInFront(r: Row, clock: nat, ws: seq<nat>, w: nat, line: Slot, kept: seq<nat>)
    requires InOrder(r, clock, ws) && w < |r.lines| && line.Line? && line.state != D.Invalid
    requires Rest(ws, w, kept) && Usable(r, kept) && Descending(r, kept) && NoneHas(r, kept, line.addr)
    ensures var r' := UseWay(r, w, line, clock + 1);
            InOrder(r', clock + 1, [w] + kept) && Blocks(r', [w] + kept) == [line.addr] + Blocks(r, kept)
  {
    FrontIsUsable(r, w, line, clock + 1, kept);
    FrontIsDescending(r, w, line, clock, kept);
    FrontCovers(r, w, line, clock + 1, ws, kept);
    assert Clocked(UseWay(r, w, line, clock + 1), clock + 1);
  }

  lemma RestOf(ws: seq<nat>, i: nat)
    requires Distinct(ws) && i < |ws|
    ensures Rest(ws, ws[i], ws[..i] + ws[i + 1..])
  {
    var kept := ws[..i] + ws[i + 1..];
    assert forall j :: 0 <= j < |kept| ==> kept[j] == ws[if j < i then j else j + 1];
    assert ws == ws[..i] + [ws[i]] + ws[i + 1..];
  }

  /** The order without one of its ways. */
  lemma WithoutWay(r: Row, clock: nat, ws: seq<nat>, i: nat)
    requires InOrder(r, clock, ws) && i < |ws|
    ensures var kept := ws[..i] + ws[i + 1..];
            && Rest(ws, ws[i], kept) && Usable(r, kept) && Descending(r, kept)
            && NoneHas(r, kept, r.lines[ws[i]].addr)
            && Blocks(r, kept) == Blocks(r, ws)[..i] + Blocks(r, ws)[i + 1..]
  {
    OrderIsDistinct(r, clock, ws);
    RestOf(ws, i);
    KeptInOrder(r, ws, i, ws[..i] + ws[i + 1..]);
  }

  lemma KeptInOrder(r: Row, ws: seq<nat>, i: nat, kept: seq<nat>)
    requires |r.counters| == |r.lines| && Usable(r, ws) && Descending(r, ws) && i < |ws|
    requires kept == ws[..i] + ws[i + 1..]
    ensures Usable(r, kept) && Descending(r, kept) && NoneHas(r, kept, r.lines[ws[i]].addr)
    ensures Blocks(r, kept) == Blocks(r, ws)[..i] + Blocks(r, ws)[i + 1..]
  {
    assert forall j :: 0 <= j < |kept| ==> kept[j] == ws[if j < i then j else j + 1];
  }

  /** Using the way of a block on the list moves the block to the front. */
  lemma UseKnownWay(r: Row, clock: nat, ws: seq<nat>, i: nat, state: D.LineState)
    requires InOrder(r, clock, ws) && i < |ws| && state != D.Invalid
    ensures var block := r.lines[ws[i]].addr;
            var r', ws' := UseWay(r, ws[i], Line(block, state), clock + 1), [ws[i]] + (ws[..i] + ws[i + 1..]);
            InOrder(r', clock + 1, ws') && Blocks(r', ws') == ToFront(Blocks(r, ws), block)
  {
    var block := r.lines[ws[i]].addr;
    WithoutWay(r, clock, ws, i);
    UseWayInFront(r, clock, ws, ws[i], Line(block, state), ws[..i] + ws[i + 1..]);
    BlocksAreDistinct(r, clock, ws);
    WithoutOne(Blocks(r, ws), block, i);
  }

  /** An unknown block takes an empty way if there is one, and otherwise the way of the
      block at the end of the list. */
  lemma LruWayIsLast(r: Row, clock: nat, ws: seq<nat>)
    requires InOrder(r, clock, ws) && |r.lines| > 0
    ensures |ws| <= |r.lines|
    ensures |ws| < |r.lines| ==> r.lines[LruWay(r.counters, |r.lines|)] == Empty
    ensures |ws| == |r.lines| ==> LruWay(r.counters, |r.lines|) == ws[|ws| - 1]
  {
    var w := LruWay(r.counters, |r.lines|);
    LruWayIsSmallest(r.counters, |r.lines|);
    OrderIsDistinct(r, clock, ws);
    SizeOfDistinct(ws, |r.lines|);
    if |ws| < |r.lines| {
      var x :| 0 <= x < |r.lines| && x !in ws;
      assert r.counters[x] == 0;
    } else {
      assert r.counters[w] <= r.counters[ws[|ws| - 1]];
      assert w in ws;
    }
  }

  function Range(n: nat): (r: set<nat>)
    ensures forall w :: w in r <==> 0 <= w < n
    ensures |r| == n
  {
    if n == 0 then {} else Range(n - 1) + {n - 1}
  }

  function Elements(ws: seq<nat>): (r: set<nat>)
    requires Distinct(ws)
    ensures forall w :: w in r <==> w in ws
    ensures |r| == |ws|
  {
    if ws == [] then {}
    else
      var n := |ws| - 1;
      assert ws == ws[..n] + [ws[n]];
      Elements(ws[..n]) + {ws[n]}
  }

  lemma SizeOfDistinct(ws: seq<nat>, n: nat)
    requires Distinct(ws) && forall i :: 0 <= i < |ws| ==> ws[i] < n
    ensures |ws| <= n
    ensures |ws| < n ==> exists w :: 0 <= w < n && w !in ws
    ensures |ws| == n ==> forall w :: 0 <= w < n ==> w in ws
  {
    var all, used := Range(n), Elements(ws);
    assert used <= all;
    SubsetSize(used, all);
    if |ws| < n {
      assert exists w :: w in all && w !in used by {
        if all <= used { SubsetSize(all, used); }
      }
    } else {
      EqualSizes(used, all);
    }
  }

  lemma EqualSizes(a: set<nat>, b: set<nat>)
    requires a <= b && |a| == |b|
    ensures a == b
  {
    if w :| w in b && w !in a {
      SubsetSize(a + {w}, b);
    }
  }

  lemma {:induction false} SubsetSize(a: set<nat>, b: set<nat>)
    requires a <= b
    ensures |a| <= |b|
    decreases |a|
  {
    if a != {} {
      var x :| x in a;
      SubsetSize(a - {x}, b - {x});
    }
  }

  /** The occupied ways after way w, unknown before, has been filled. */
  function AfterFill(ws: seq<nat>, numWays: nat, w: nat): seq<nat> {
    if |ws| < numWays then [w] + ws else if |ws| > 0 then [w] + ws[..|ws| - 1] else [w]
  }

  lemma UseNewWay(r: Row, clock: nat, ws: seq<nat>, block: nat, state: D.LineState)
    requires InOrder(r, clock, ws) && |r.lines| > 0 && block !in Blocks(r, ws) && state != D.Invalid
    ensures var w := LruWay(r.counters, |r.lines|);
            var r', ws' := UseWay(r, w, Line(block, state), clock + 1), AfterFill(ws, |r.lines|, w);
            InOrder(r', clock + 1, ws') && Blocks(r', ws') == Take([block] + Blocks(r, ws), |r.lines|)
  {
    LruWayIsLast(r, clock, ws);
    var w := LruWay(r.counters, |r.lines|);
    assert NoneHas(r, ws, block) by {
      forall j | 0 <= j < |ws| ensures r.lines[ws[j]].addr != block { assert Blocks(r, ws)[j] == r.lines[ws[j]].addr; }
    }
    if |ws| < |r.lines| {
      UseWayInFront(r, clock, ws, w, Line(block, state), ws);
    } else {
      var n := |ws| - 1;
      WithoutWay(r, clock, ws, n);
      assert ws[..n] + ws[n + 1..] == ws[..n];
      assert NoneHas(r, ws[..n], block);
      UseWayInFront(r, clock, ws, w, Line(block, state), ws[..n]);
      assert Blocks(r, ws[..n]) == Blocks(r, ws)[..n];
    }
  }
}
