/** The recency list that LRU replacement is meant to follow: blocks, most recently used
    first. This is the reference; it knows nothing of counters or ways. */
module Recency {

  function Without(s: seq<int>, x: int): seq<int> {
    if s == [] then []
    else if s[0] == x then Without(s[1..], x)
    else [s[0]] + Without(s[1..], x)
  }

  function ToFront(s: seq<int>, x: int): seq<int> {
    [x] + Without(s, x)
  }

  predicate Distinct(s: seq<int>) {
    forall i, j :: 0 <= i < j < |s| ==> s[i] != s[j]
  }

  function Take(s: seq<int>, k: nat): seq<int> {
    if |s| <= k then s else s[..k]
  }

  /** One access of a list of at most `k` blocks, and whether it is a hit. */
  function Use(s: seq<int>, k: nat, x: int): (seq<int>, bool) {
    if x in s then (ToFront(s, x), true) else (Take([x] + s, k), false)
  }

  /** The list after a trace of accesses, and the hits on the way. */
  function Lru(k: nat, trace: seq<int>): seq<int> {
    if trace == [] then [] else Use(Lru(k, trace[..|trace| - 1]), k, trace[|trace| - 1]).0
  }

  lemma LruSnoc(k: nat, trace: seq<int>, x: int)
    ensures Lru(k, trace + [x]) == Use(Lru(k, trace), k, x).0
  {
    assert (trace + [x])[..|trace|] == trace;
  }

  function Hits(k: nat, trace: seq<int>): nat {
    if trace == [] then 0
    else
      var n := |trace| - 1;
      Hits(k, trace[..n]) + if trace[n] in Lru(k, trace[..n]) then 1 else 0
  }

  /** The same with no bound on the number of blocks. */
  function Stack(trace: seq<int>): seq<int> {
    if trace == [] then [] else ToFront(Stack(trace[..|trace| - 1]), trace[|trace| - 1])
  }

  lemma {:induction false} WithoutOne(s: seq<int>, x: int, i: nat)
    requires Distinct(s) && i < |s| && s[i] == x
    ensures Without(s, x) == s[..i] + s[i + 1..]
    decreases |s|
  {
    if i == 0 {
      WithoutNone(s[1..], x);
    } else {
      WithoutOne(s[1..], x, i - 1);
      assert s[..i] == [s[0]] + s[1..][..i - 1];
    }
  }

  lemma {:induction false} WithoutNone(s: seq<int>, x: int)
    requires x !in s
    ensures Without(s, x) == s
    decreases |s|
  {
    if s != [] {
      WithoutNone(s[1..], x);
    }
  }

  lemma {:induction false} WithoutKeeps(s: seq<int>, x: int)
    ensures forall y :: y in Without(s, x) <==> y in s && y != x
    decreases |s|
  {
    if s != [] {
      WithoutKeeps(s[1..], x);
      assert s == [s[0]] + s[1..];
    }
  }

  lemma ToFrontIsDistinct(s: seq<int>, x: int)
    requires Distinct(s)
    ensures Distinct(ToFront(s, x))
  {
    if i :| 0 <= i < |s| && s[i] == x {
      WithoutOne(s, x, i);
    } else {
      WithoutNone(s, x);
    }
    WithoutKeeps(s, x);
    var rest := Without(s, x);
    assert forall j :: 0 <= j < |rest| ==> rest[j] != x;
  }

  lemma {:induction false} StackIsDistinct(trace: seq<int>)
    ensures Distinct(Stack(trace))
  {
    if trace != [] {
      StackIsDistinct(trace[..|trace| - 1]);
      ToFrontIsDistinct(Stack(trace[..|trace| - 1]), trace[|trace| - 1]);
    }
  }

  lemma UseKnown(s: seq<int>, k: nat, x: int, i: nat)
    requires Distinct(s) && i < |Take(s, k)| && s[i] == x
    ensures ToFront(Take(s, k), x) == Take(ToFront(s, x), k)
  {
    var top := Take(s, k);
    WithoutOne(s, x, i);
    WithoutOne(top, x, i);
    assert ToFront(s, x) == [x] + s[..i] + s[i + 1..];
    assert ToFront(top, x) == [x] + top[..i] + top[i + 1..];
  }

  lemma UseUnknown(s: seq<int>, k: nat, x: int)
    requires Distinct(s) && k > 0 && x !in Take(s, k)
    ensures Take([x] + Take(s, k), k) == Take(ToFront(s, x), k)
  {
    if i :| 0 <= i < |s| && s[i] == x {
      WithoutOne(s, x, i);
      assert forall j :: 0 <= j < k && j < |s| ==> s[j] == Take(s, k)[j];
      assert ToFront(s, x) == [x] + s[..i] + s[i + 1..];
    } else {
      WithoutNone(s, x);
    }
  }

  /** Using the first k blocks of a stack gives the first k blocks of the new stack. */
  lemma UseTakesTop(s: seq<int>, k: nat, x: int)
    requires Distinct(s) && k > 0
    ensures Use(Take(s, k), k, x).0 == Take(ToFront(s, x), k)
  {
    hide ToFront;
    var top := Take(s, k);
    if x in top {
      var i :| 0 <= i < |top| && top[i] == x;
      UseKnown(s, k, x, i);
    } else {
      UseUnknown(s, k, x);
    }
  }

  /** Whatever the size, the blocks held are the top of one and the same stack. */
  lemma {:induction false} LruIsTopOfStack(k: nat, trace: seq<int>)
    requires k > 0
    ensures Lru(k, trace) == Take(Stack(trace), k)
  {
    if trace != [] {
      var n := |trace| - 1;
      LruIsTopOfStack(k, trace[..n]);
      StackIsDistinct(trace[..n]);
      UseTakesTop(Stack(trace[..n]), k, trace[n]);
    }
  }

  /** Stack inclusion: what fewer ways hold, more ways hold too. */
  lemma Inclusion(k: nat, k': nat, trace: seq<int>, x: int)
    requires 0 < k <= k' && x in Lru(k, trace)
    ensures x in Lru(k', trace)
  {
    LruIsTopOfStack(k, trace);
    LruIsTopOfStack(k', trace);
  }

  /** So more ways never hit less. */
  lemma {:induction false} MoreWaysMoreHits(k: nat, k': nat, trace: seq<int>)
    requires 0 < k <= k'
    ensures Hits(k, trace) <= Hits(k', trace)
  {
    if trace != [] {
      var n := |trace| - 1;
      MoreWaysMoreHits(k, k', trace[..n]);
      if trace[n] in Lru(k, trace[..n]) {
        Inclusion(k, k', trace[..n], trace[n]);
      }
    }
  }
}
