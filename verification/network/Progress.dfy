/** Progress of a whole network (internal/core/node/node.go, internal/core/link/link.go,
    internal/core/link/handler_buffered.go, internal/core/queue/input_queue.go). Nodes and
    buffered links run concurrently, each towards the same target cycle, and meet only in
    ports: a reader waits for a cycle to be marked done, a sender waits for a readiness
    decision and for room in the channel. Output queues are ticked in their current cycle
    only. For every topology a component that is furthest behind is never blocked, and
    every run ends. */
module Progress {

  /** Capacity of the channel made by NewPort. */
  const CHANNEL_CAPACITY := 64

  /** A link from output port `srcPort` of node `src` to input port `dstPort` of `dst`. */
  datatype Edge = Edge(src: nat, srcPort: nat, dst: nat, dstPort: nat,
                       latency: nat, outBandwidth: nat, linkBandwidth: nat)

  /** ins[v] and outs[v] list the links at the ports of node v. */
  datatype Topology = Topology(ins: seq<seq<nat>>, outs: seq<seq<nat>>, links: seq<Edge>, target: nat) {

    ghost predicate WellFormed() {
      && |ins| == |outs|
      && (forall v, j :: 0 <= v < |ins| && 0 <= j < |ins[v]| ==>
            ins[v][j] < |links| && links[ins[v][j]].dst == v && links[ins[v][j]].dstPort == j)
      && (forall v, j :: 0 <= v < |outs| && 0 <= j < |outs[v]| ==>
            outs[v][j] < |links| && links[outs[v][j]].src == v && links[outs[v][j]].srcPort == j)
      && (forall l :: 0 <= l < |links| ==> Attached(links[l], l))
    }

    ghost predicate Attached(e: Edge, l: nat) {
      && e.src < |outs| && e.srcPort < |outs[e.src]| && outs[e.src][e.srcPort] == l
      && e.dst < |ins| && e.dstPort < |ins[e.dst]| && ins[e.dst][e.dstPort] == l
      && e.latency >= 1
      && e.outBandwidth * e.latency <= CHANNEL_CAPACITY
      && 1 <= e.linkBandwidth <= CHANNEL_CAPACITY
    }
  }

  /** Where a node is in Tick: input queue `port` drains its channel, waits for upstream and
      stores; after the handler, output queue `port` has sent `sent` packets. */
  datatype NodePoint =
    | Drain(port: nat)
    | Wait(port: nat)
    | Send(port: nat, sent: nat)

  /** Where a link is in Tick: it receives, asks for the decision of downstream, sends. */
  datatype LinkPoint =
    | LinkDrain
    | LinkWait
    | LinkAsk
    | LinkSend(sent: nat)

  datatype NodeState = NodeState(cycle: nat, point: NodePoint)

  /** `inbox` and `outbox` count the packets in the channels to and from the link. */
  datatype LinkState = LinkState(cycle: nat, point: LinkPoint, inbox: nat, outbox: nat)

  datatype State = State(nodes: seq<NodeState>, links: seq<LinkState>)

  ghost predicate Shaped(t: Topology, s: State) {
    && t.WellFormed()
    && |s.nodes| == |t.ins| && |s.links| == |t.links|
    && (forall v :: 0 <= v < |s.nodes| ==>
          match s.nodes[v].point
          case Drain(j) => j < |t.ins[v]|
          case Wait(j) => j < |t.ins[v]|
          case Send(j, k) =>
            j <= |t.outs[v]| && k <= if j < |t.outs[v]| then t.links[t.outs[v][j]].outBandwidth else 0)
    && (forall l :: 0 <= l < |s.links| ==>
          match s.links[l].point
          case LinkAsk => true
          case LinkSend(k) => k <= t.links[l].linkBandwidth
          case _ => t.links[l].latency <= s.links[l].cycle)
  }

  function StartOfTick(t: Topology, v: nat): NodePoint
    requires v < |t.ins|
  {
    if |t.ins[v]| > 0 then Drain(0) else Send(0, 0)
  }

  /** A link receives nothing before cycle `latency`. */
  function StartOfLinkTick(e: Edge, cycle: nat): LinkPoint {
    if cycle < e.latency then LinkAsk else LinkDrain
  }

  function Initial(t: Topology): State {
    State(seq(|t.ins|, v requires 0 <= v < |t.ins| => NodeState(0, StartOfTick(t, v))),
          seq(|t.links|, l requires 0 <= l < |t.links| => LinkState(0, StartOfLinkTick(t.links[l], 0), 0, 0)))
  }

  // ------------------------------------------------------------- what ports can tell

  /** Cycles the source node has marked done for link `l`. */
  function Marked(t: Topology, s: State, l: nat): nat
    requires l < |t.links| && t.links[l].src < |s.nodes|
  {
    var n := s.nodes[t.links[l].src];
    n.cycle + if n.point.Send? && n.point.port > t.links[l].srcPort then 1 else 0
  }

  /** Packets the source node has sent to link `l` for the cycle it has not yet marked. */
  function Unmarked(t: Topology, s: State, l: nat): nat
    requires l < |t.links| && t.links[l].src < |s.nodes|
  {
    var n := s.nodes[t.links[l].src];
    if n.point.Send? && n.point.port == t.links[l].srcPort then n.point.sent else 0
  }

  /** Cycles the target node has received from link `l`. */
  function Taken(t: Topology, s: State, l: nat): nat
    requires l < |t.links| && t.links[l].dst < |s.nodes|
  {
    var n := s.nodes[t.links[l].dst];
    n.cycle + if n.point.Send? || n.point.port > t.links[l].dstPort then 1 else 0
  }

  /** Cycles of its source the link has received. */
  function Received(t: Topology, s: State, l: nat): nat
    requires l < |t.links| && l < |s.links|
  {
    var k := s.links[l];
    if k.cycle < t.links[l].latency then 0
    else k.cycle - t.links[l].latency + if k.point.LinkDrain? || k.point.LinkWait? then 0 else 1
  }

  function LinkUnmarked(k: LinkState): nat {
    if k.point.LinkSend? then k.point.sent else 0
  }

  /** The link's decisions for its source: Init decides the first latency + 1 cycles, and
      processing cycle c decides cycle c + 1. */
  predicate LinkDecided(t: Topology, s: State, l: nat, cycle: nat)
    requires l < |t.links| && l < |s.links|
  {
    cycle <= t.links[l].latency || cycle <= s.links[l].cycle
  }

  /** The input queue's decisions: 0 and 1 when it is connected, and at least c + 1 in the
      tick of cycle c. */
  predicate NodeDecided(t: Topology, s: State, l: nat, cycle: nat)
    requires l < |t.links| && t.links[l].dst < |s.nodes|
  {
    cycle <= 1 || cycle <= Taken(t, s, l)
  }

  // ------------------------------------------------------------------ the steps

  datatype Move =
    | NodeStep(node: nat)   // drain, or take what upstream has marked done
    | NodeSends(node: nat)  // one packet into the channel of the current output queue
    | NodeMarks(node: nat)  // the current output queue marks its cycle done, or the tick ends
    | LinkStep(link: nat)
    | LinkSends(link: nat)
    | LinkMarks(link: nat)  // the link publishes its decision, marks done and ends its tick

  ghost predicate Enabled(t: Topology, s: State, m: Move)
    requires Shaped(t, s)
  {
    match m
    case NodeStep(v) =>
      && v < |s.nodes| && s.nodes[v].cycle <= t.target
      && !s.nodes[v].point.Send?
      && (s.nodes[v].point.Wait? ==> s.links[t.ins[v][s.nodes[v].point.port]].cycle > s.nodes[v].cycle)
    case NodeSends(v) =>
      && v < |s.nodes| && s.nodes[v].cycle <= t.target
      && s.nodes[v].point.Send? && s.nodes[v].point.port < |t.outs[v]|
      && var l := t.outs[v][s.nodes[v].point.port];
         && s.nodes[v].point.sent < t.links[l].outBandwidth
         && LinkDecided(t, s, l, s.nodes[v].cycle)
         && s.links[l].inbox < CHANNEL_CAPACITY
    case NodeMarks(v) =>
      && v < |s.nodes| && s.nodes[v].cycle <= t.target
      && s.nodes[v].point.Send?
    case LinkStep(l) =>
      && l < |s.links| && s.links[l].cycle <= t.target
      && !s.links[l].point.LinkSend?
      && (s.links[l].point.LinkWait? ==> Marked(t, s, l) > s.links[l].cycle - t.links[l].latency)
      && (s.links[l].point.LinkAsk? ==> NodeDecided(t, s, l, s.links[l].cycle))
    case LinkSends(l) =>
      && l < |s.links| && s.links[l].cycle <= t.target
      && s.links[l].point.LinkSend? && s.links[l].point.sent < t.links[l].linkBandwidth
      && s.links[l].outbox < CHANNEL_CAPACITY
    case LinkMarks(l) =>
      && l < |s.links| && s.links[l].cycle <= t.target
      && s.links[l].point.LinkSend?
  }

  function AfterPort(t: Topology, v: nat, port: nat): NodePoint
    requires v < |t.ins|
  {
    if port + 1 < |t.ins[v]| then Drain(port + 1) else Send(0, 0)
  }

  function Apply(t: Topology, s: State, m: Move): State
    requires Shaped(t, s) && Enabled(t, s, m)
  {
    match m
    case NodeStep(v) =>
      var n := s.nodes[v];
      var l := t.ins[v][n.point.port];
      s.(nodes := s.nodes[v := n.(point := if n.point.Drain? then Wait(n.point.port) else AfterPort(t, v, n.point.port))],
         links := s.links[l := s.links[l].(outbox := 0)])
    case NodeSends(v) =>
      var n := s.nodes[v];
      var l := t.outs[v][n.point.port];
      s.(nodes := s.nodes[v := n.(point := Send(n.point.port, n.point.sent + 1))],
         links := s.links[l := s.links[l].(inbox := s.links[l].inbox + 1)])
    case NodeMarks(v) =>
      var n := s.nodes[v];
      s.(nodes := s.nodes[v := if n.point.port < |t.outs[v]|
                               then n.(point := Send(n.point.port + 1, 0))
                               else NodeState(n.cycle + 1, StartOfTick(t, v))])
    case LinkStep(l) =>
      var k := s.links[l];
      s.(links := s.links[l := match k.point
                               case LinkDrain => k.(point := LinkWait, inbox := 0)
                               case LinkWait => k.(point := LinkAsk, inbox := 0)
                               case _ => k.(point := LinkSend(0))])
    case LinkSends(l) =>
      var k := s.links[l];
      s.(links := s.links[l := k.(point := LinkSend(k.point.sent + 1), outbox := k.outbox + 1)])
    case LinkMarks(l) =>
      var k := s.links[l];
      s.(links := s.links[l := k.(cycle := k.cycle + 1, point := StartOfLinkTick(t.links[l], k.cycle + 1))])
  }

  // ------------------------------------------------------------------ the invariant

  /** The packets of `cycles` full bursts. */
  function Bursts(bandwidth: nat, cycles: int): nat
    decreases cycles
  {
    if cycles <= 0 then 0 else Bursts(bandwidth, cycles - 1) + bandwidth
  }

  /** A link's channels hold no more than has been sent since the last drain. */
  ghost predicate ChannelsBounded(t: Topology, s: State, l: nat)
    requires l < |t.links| && l < |s.links| && t.links[l].src < |s.nodes| && t.links[l].dst < |s.nodes|
  {
    && Received(t, s, l) <= Marked(t, s, l)
    && s.links[l].inbox <= Bursts(t.links[l].outBandwidth, Marked(t, s, l) - Received(t, s, l)) + Unmarked(t, s, l)
    && Taken(t, s, l) <= s.links[l].cycle
    && s.links[l].outbox <= Bursts(t.links[l].linkBandwidth, s.links[l].cycle - Taken(t, s, l)) + LinkUnmarked(s.links[l])
  }

  ghost predicate Inv(t: Topology, s: State) {
    && Shaped(t, s)
    && forall l :: 0 <= l < |s.links| ==> ChannelsBounded(t, s, l)
  }

  lemma InitialInv(t: Topology)
    requires t.WellFormed()
    ensures Inv(t, Initial(t))
  {
    forall l | 0 <= l < |t.links|
      ensures ChannelsBounded(t, Initial(t), l)
    {
    }
  }

  lemma StepKeepsShape(t: Topology, s: State, m: Move)
    requires Shaped(t, s) && Enabled(t, s, m)
    ensures Shaped(t, Apply(t, s, m))
  {
    hide Shaped, Enabled, Apply;
    if m.NodeStep? || m.NodeSends? || m.NodeMarks? {
      NodesKeepShape(t, s, m);
    } else {
      LinksKeepShape(t, s, m);
    }
  }

  lemma NodesKeepShape(t: Topology, s: State, m: Move)
    requires Shaped(t, s) && Enabled(t, s, m) && (m.NodeStep? || m.NodeSends? || m.NodeMarks?)
    ensures Shaped(t, Apply(t, s, m))
  {
  }

  lemma LinksKeepShape(t: Topology, s: State, m: Move)
    requires Shaped(t, s) && Enabled(t, s, m) && (m.LinkStep? || m.LinkSends? || m.LinkMarks?)
    ensures Shaped(t, Apply(t, s, m))
  {
  }

  lemma NodeStepKeepsChannels(t: Topology, s: State, v: nat, l: nat)
    requires Shaped(t, s) && Enabled(t, s, NodeStep(v)) && l < |s.links| && ChannelsBounded(t, s, l)
    ensures ChannelsBounded(t, Apply(t, s, NodeStep(v)), l)
  {
    assert t.Attached(t.links[l], l);
  }

  lemma NodeSendsKeepsChannels(t: Topology, s: State, v: nat, l: nat)
    requires Shaped(t, s) && Enabled(t, s, NodeSends(v)) && l < |s.links| && ChannelsBounded(t, s, l)
    ensures ChannelsBounded(t, Apply(t, s, NodeSends(v)), l)
  {
    assert t.Attached(t.links[l], l);
  }

  lemma NodeMarksKeepsChannels(t: Topology, s: State, v: nat, l: nat)
    requires Shaped(t, s) && Enabled(t, s, NodeMarks(v)) && l < |s.links| && ChannelsBounded(t, s, l)
    ensures ChannelsBounded(t, Apply(t, s, NodeMarks(v)), l)
  {
    assert t.Attached(t.links[l], l);
    var s' := Apply(t, s, NodeMarks(v));
    assert Taken(t, s', l) == Taken(t, s, l);
    MarkingCounts(t, s, v, l);
  }

  /** Marking ends the burst of the output queue it concerns, and changes no other count. */
  lemma MarkingCounts(t: Topology, s: State, v: nat, l: nat)
    requires Shaped(t, s) && Enabled(t, s, NodeMarks(v)) && l < |s.links|
    requires t.Attached(t.links[l], l)
    ensures var s' := Apply(t, s, NodeMarks(v));
            || (Marked(t, s', l) == Marked(t, s, l) && Unmarked(t, s', l) == Unmarked(t, s, l))
            || (Marked(t, s', l) == Marked(t, s, l) + 1 && Unmarked(t, s', l) == 0
                && Unmarked(t, s, l) <= t.links[l].outBandwidth)
  {
  }

  lemma LinkStepKeepsChannels(t: Topology, s: State, k: nat, l: nat)
    requires Shaped(t, s) && Enabled(t, s, LinkStep(k)) && l < |s.links| && ChannelsBounded(t, s, l)
    ensures ChannelsBounded(t, Apply(t, s, LinkStep(k)), l)
  {
    assert t.Attached(t.links[l], l);
  }

  lemma LinkSendsKeepsChannels(t: Topology, s: State, k: nat, l: nat)
    requires Shaped(t, s) && Enabled(t, s, LinkSends(k)) && l < |s.links| && ChannelsBounded(t, s, l)
    ensures ChannelsBounded(t, Apply(t, s, LinkSends(k)), l)
  {
    assert t.Attached(t.links[l], l);
  }

  /** Marking ends the link's burst and its tick; what it has received and what its target has
      taken stay the same. */
  lemma LinkMarkingCounts(t: Topology, s: State, k: nat, l: nat)
    requires Shaped(t, s) && Enabled(t, s, LinkMarks(k)) && l < |s.links|
    ensures var s' := Apply(t, s, LinkMarks(k));
            && s'.nodes == s.nodes && s'.links[l].inbox == s.links[l].inbox && s'.links[l].outbox == s.links[l].outbox
            && Received(t, s', l) == Received(t, s, l)
            && (if l == k then s'.links[l].cycle == s.links[l].cycle + 1 && LinkUnmarked(s'.links[l]) == 0
                               && LinkUnmarked(s.links[l]) <= t.links[l].linkBandwidth
                else s'.links[l] == s.links[l])
  {
  }

  lemma LinkMarksKeepsChannels(t: Topology, s: State, k: nat, l: nat)
    requires Shaped(t, s) && Enabled(t, s, LinkMarks(k)) && l < |s.links| && ChannelsBounded(t, s, l)
    ensures ChannelsBounded(t, Apply(t, s, LinkMarks(k)), l)
  {
    assert t.Attached(t.links[l], l);
    LinkMarkingCounts(t, s, k, l);
    hide Apply, Enabled, Received, LinkUnmarked;
  }

  lemma StepKeepsInv(t: Topology, s: State, m: Move)
    requires Inv(t, s) && Enabled(t, s, m)
    ensures Inv(t, Apply(t, s, m))
  {
    StepKeepsShape(t, s, m);
    forall l | 0 <= l < |s.links|
      ensures ChannelsBounded(t, Apply(t, s, m), l)
    {
      match m
      case NodeStep(v) => NodeStepKeepsChannels(t, s, v, l);
      case NodeSends(v) => NodeSendsKeepsChannels(t, s, v, l);
      case NodeMarks(v) => NodeMarksKeepsChannels(t, s, v, l);
      case LinkStep(k) => LinkStepKeepsChannels(t, s, k, l);
      case LinkSends(k) => LinkSendsKeepsChannels(t, s, k, l);
      case LinkMarks(k) => LinkMarksKeepsChannels(t, s, k, l);
    }
  }

  // ------------------------------------------------------------------ progress

  datatype Component = TheNode(node: nat) | TheLink(link: nat)

  predicate Unfinished(t: Topology, s: State, x: Component) {
    match x
    case TheNode(v) => v < |s.nodes| && s.nodes[v].cycle <= t.target
    case TheLink(l) => l < |s.links| && s.links[l].cycle <= t.target
  }

  /** Components are ordered by cycle, and links come before nodes. */
  function Rank(s: State, x: Component): int {
    match x
    case TheNode(v) => if v < |s.nodes| then 2 * s.nodes[v].cycle + 1 else -1
    case TheLink(l) => if l < |s.links| then 2 * s.links[l].cycle else -1
  }

  ghost predicate FurthestBehind(t: Topology, s: State, x: Component) {
    Unfinished(t, s, x) && forall y :: Unfinished(t, s, y) ==> Rank(s, x) <= Rank(s, y)
  }

  /** The component waits for another one, or would have to if it sent one more packet. */
  ghost predicate MayBlock(t: Topology, s: State, x: Component)
    requires Shaped(t, s) && Unfinished(t, s, x)
  {
    match x
    case TheNode(v) =>
      var p := s.nodes[v].point;
      || (p.Wait? && !Enabled(t, s, NodeStep(v)))
      || (p.Send? && p.port < |t.outs[v]| && p.sent < t.links[t.outs[v][p.port]].outBandwidth
          && !Enabled(t, s, NodeSends(v)))
    case TheLink(l) =>
      var p := s.links[l].point;
      || ((p.LinkWait? || p.LinkAsk?) && !Enabled(t, s, LinkStep(l)))
      || (p.LinkSend? && p.sent < t.links[l].linkBandwidth && !Enabled(t, s, LinkSends(l)))
  }

  lemma {:induction false} BurstsIsProduct(bandwidth: nat, cycles: nat)
    ensures Bursts(bandwidth, cycles) == bandwidth * cycles
  {
    if cycles > 0 {
      BurstsIsProduct(bandwidth, cycles - 1);
      assert bandwidth * (cycles - 1) + bandwidth == bandwidth * cycles;
    }
  }

  lemma {:induction false} BurstsGrow(bandwidth: nat, x: int, y: int)
    requires x <= y
    ensures Bursts(bandwidth, x) <= Bursts(bandwidth, y)
    decreases y - x
  {
    if x < y {
      BurstsGrow(bandwidth, x, y - 1);
    }
  }

  /** No component further behind than node v: every link at its ports is ahead of it. */
  lemma NodeFurthestBehind(t: Topology, s: State, v: nat)
    requires Inv(t, s) && FurthestBehind(t, s, TheNode(v))
    ensures !MayBlock(t, s, TheNode(v))
  {
    var n := s.nodes[v];
    if n.point.Wait? {
      var l := t.ins[v][n.point.port];
      assert Unfinished(t, s, TheLink(l)) ==> Rank(s, TheNode(v)) <= Rank(s, TheLink(l));
    } else if n.point.Send? && n.point.port < |t.outs[v]| {
      var l := t.outs[v][n.point.port];
      var e := t.links[l];
      assert t.Attached(e, l) && ChannelsBounded(t, s, l);
      assert Unfinished(t, s, TheLink(l)) ==> Rank(s, TheNode(v)) <= Rank(s, TheLink(l));
      BurstsGrow(e.outBandwidth, Marked(t, s, l) - Received(t, s, l), e.latency - 1);
      BurstsIsProduct(e.outBandwidth, e.latency);
    }
  }

  /** No component further behind than link l: both its nodes have reached its cycle. */
  lemma LinkFurthestBehind(t: Topology, s: State, l: nat)
    requires Inv(t, s) && FurthestBehind(t, s, TheLink(l))
    ensures !MayBlock(t, s, TheLink(l))
  {
    var e := t.links[l];
    assert t.Attached(e, l) && ChannelsBounded(t, s, l);
    assert Unfinished(t, s, TheNode(e.src)) ==> Rank(s, TheLink(l)) <= Rank(s, TheNode(e.src));
    assert Unfinished(t, s, TheNode(e.dst)) ==> Rank(s, TheLink(l)) <= Rank(s, TheNode(e.dst));
  }

  /** Among unfinished components one is furthest behind. */
  lemma SomeoneIsFurthestBehind(t: Topology, s: State, some: Component) returns (best: Component)
    requires Unfinished(t, s, some)
    ensures FurthestBehind(t, s, best)
  {
    best := some;
    for v := 0 to |s.nodes|
      invariant Unfinished(t, s, best)
      invariant Rank(s, best) <= Rank(s, some)
      invariant forall u: nat :: u < v && Unfinished(t, s, TheNode(u)) ==> Rank(s, best) <= Rank(s, TheNode(u))
    {
      if Unfinished(t, s, TheNode(v)) && Rank(s, TheNode(v)) < Rank(s, best) {
        best := TheNode(v);
      }
    }
    for l := 0 to |s.links|
      invariant Unfinished(t, s, best)
      invariant forall u: nat :: u < |s.nodes| && Unfinished(t, s, TheNode(u)) ==> Rank(s, best) <= Rank(s, TheNode(u))
      invariant forall k: nat :: k < l && Unfinished(t, s, TheLink(k)) ==> Rank(s, best) <= Rank(s, TheLink(k))
    {
      if Unfinished(t, s, TheLink(l)) && Rank(s, TheLink(l)) < Rank(s, best) {
        best := TheLink(l);
      }
    }
  }

  // ------------------------------------------------------------------ termination

  /** Steps left in a tick of node v from output port `port` on. */
  function OutputWork(t: Topology, v: nat, port: nat): (r: nat)
    requires t.WellFormed() && v < |t.outs|
    ensures r >= 1
    decreases |t.outs[v]| - port
  {
    if port >= |t.outs[v]| then 1
    else t.links[t.outs[v][port]].outBandwidth + 1 + OutputWork(t, v, port + 1)
  }

  function PointWork(t: Topology, v: nat, p: NodePoint): int
    requires t.WellFormed() && v < |t.outs|
  {
    match p
    case Drain(j) => 2 * (|t.ins[v]| - j) + OutputWork(t, v, 0)
    case Wait(j) => 2 * (|t.ins[v]| - j) - 1 + OutputWork(t, v, 0)
    case Send(j, k) => OutputWork(t, v, j) - k
  }

  function NodeWork(t: Topology, v: nat, n: NodeState): int
    requires t.WellFormed() && v < |t.outs|
  {
    if n.cycle > t.target then 0
    else Bursts(2 * |t.ins[v]| + OutputWork(t, v, 0), t.target - n.cycle) + PointWork(t, v, n.point)
  }

  function LinkPointWork(e: Edge, p: LinkPoint): int {
    match p
    case LinkDrain => e.linkBandwidth + 4
    case LinkWait => e.linkBandwidth + 3
    case LinkAsk => e.linkBandwidth + 2
    case LinkSend(k) => e.linkBandwidth + 1 - k
  }

  function LinkWork(t: Topology, l: nat, k: LinkState): int
    requires l < |t.links|
  {
    if k.cycle > t.target then 0
    else Bursts(t.links[l].linkBandwidth + 4, t.target - k.cycle) + LinkPointWork(t.links[l], k.point)
  }

  function Sum(works: seq<int>): int {
    if works == [] then 0 else Sum(works[..|works| - 1]) + works[|works| - 1]
  }

  lemma {:induction false} SumAfterUpdate(works: seq<int>, i: nat, w: int)
    requires i < |works|
    ensures Sum(works[i := w]) == Sum(works) - works[i] + w
  {
    var n := |works| - 1;
    if i == n {
      assert works[i := w][..n] == works[..n];
    } else {
      SumAfterUpdate(works[..n], i, w);
      assert works[i := w][..n] == works[..n][i := w];
    }
  }

  lemma {:induction false} SumIsNatural(works: seq<int>)
    requires forall i :: 0 <= i < |works| ==> works[i] >= 0
    ensures Sum(works) >= 0
  {
    if works != [] {
      SumIsNatural(works[..|works| - 1]);
    }
  }

  function NodeWorks(t: Topology, nodes: seq<NodeState>): seq<int>
    requires t.WellFormed() && |nodes| == |t.outs|
  {
    seq(|nodes|, v requires 0 <= v < |nodes| => NodeWork(t, v, nodes[v]))
  }

  function LinkWorks(t: Topology, links: seq<LinkState>): seq<int>
    requires |links| == |t.links|
  {
    seq(|links|, l requires 0 <= l < |links| => LinkWork(t, l, links[l]))
  }

  /** An upper bound on the number of steps the network can still take. */
  ghost function Work(t: Topology, s: State): int
    requires Shaped(t, s)
  {
    Sum(NodeWorks(t, s.nodes)) + Sum(LinkWorks(t, s.links))
  }

  lemma NodeWorkIsNatural(t: Topology, s: State, v: nat)
    requires Shaped(t, s) && v < |s.nodes|
    ensures NodeWork(t, v, s.nodes[v]) >= 0
  {
  }

  lemma WorkIsNatural(t: Topology, s: State)
    requires Shaped(t, s)
    ensures Work(t, s) >= 0
  {
    forall v | 0 <= v < |s.nodes| ensures NodeWorks(t, s.nodes)[v] >= 0 { NodeWorkIsNatural(t, s, v); }
    SumIsNatural(NodeWorks(t, s.nodes));
    SumIsNatural(LinkWorks(t, s.links));
  }

  lemma NodeStepDoesWork(t: Topology, s: State, v: nat)
    requires Shaped(t, s) && Enabled(t, s, NodeStep(v))
    ensures NodeWork(t, v, Apply(t, s, NodeStep(v)).nodes[v]) < NodeWork(t, v, s.nodes[v])
  {
  }

  lemma NodeSendsDoesWork(t: Topology, s: State, v: nat)
    requires Shaped(t, s) && Enabled(t, s, NodeSends(v))
    ensures NodeWork(t, v, Apply(t, s, NodeSends(v)).nodes[v]) < NodeWork(t, v, s.nodes[v])
  {
  }

  lemma NodeMarksDoesWork(t: Topology, s: State, v: nat)
    requires Shaped(t, s) && Enabled(t, s, NodeMarks(v))
    ensures NodeWork(t, v, Apply(t, s, NodeMarks(v)).nodes[v]) < NodeWork(t, v, s.nodes[v])
  {
    var n, n' := s.nodes[v], Apply(t, s, NodeMarks(v)).nodes[v];
    if n.point.port < |t.outs[v]| {
      assert OutputWork(t, v, n.point.port) == t.links[t.outs[v][n.point.port]].outBandwidth + 1 + OutputWork(t, v, n.point.port + 1);
      hide Apply, Shaped, Enabled;
    } else {
      assert n' == NodeState(n.cycle + 1, StartOfTick(t, v)) && n.point.sent == 0;
      hide Apply, Shaped, Enabled;
      NextTickDoesWork(t, v, n);
    }
  }

  lemma NextTickDoesWork(t: Topology, v: nat, n: NodeState)
    requires t.WellFormed() && v < |t.outs| && n.cycle <= t.target && n.point == Send(|t.outs[v]|, 0)
    ensures NodeWork(t, v, NodeState(n.cycle + 1, StartOfTick(t, v))) < NodeWork(t, v, n)
  {
  }

  lemma NodeMoveDoesWork(t: Topology, s: State, m: Move, v: nat)
    requires Shaped(t, s) && Enabled(t, s, m)
    requires (m.NodeStep? || m.NodeSends? || m.NodeMarks?) && v == m.node
    ensures NodeWork(t, v, Apply(t, s, m).nodes[v]) < NodeWork(t, v, s.nodes[v])
  {
    hide Apply, NodeWork;
    match m
    case NodeStep(_) => NodeStepDoesWork(t, s, v);
    case NodeSends(_) => NodeSendsDoesWork(t, s, v);
    case NodeMarks(_) => NodeMarksDoesWork(t, s, v);
  }

  lemma LinkMoveDoesWork(t: Topology, s: State, m: Move, l: nat)
    requires Shaped(t, s) && Enabled(t, s, m)
    requires (m.LinkStep? || m.LinkSends? || m.LinkMarks?) && l == m.link
    ensures LinkWork(t, l, Apply(t, s, m).links[l]) < LinkWork(t, l, s.links[l])
  {
  }

  lemma LinkWorkIgnoresChannels(t: Topology, s: State, m: Move)
    requires Shaped(t, s) && Enabled(t, s, m)
    requires m.NodeStep? || m.NodeSends? || m.NodeMarks?
    ensures LinkWorks(t, Apply(t, s, m).links) == LinkWorks(t, s.links)
  {
    var s' := Apply(t, s, m);
    forall l | 0 <= l < |s.links|
      ensures LinkWork(t, l, s'.links[l]) == LinkWork(t, l, s.links[l])
    {
      assert s'.links[l].cycle == s.links[l].cycle && s'.links[l].point == s.links[l].point;
    }
  }

  lemma NodesAfterMove(t: Topology, s: State, m: Move)
    requires Shaped(t, s) && Enabled(t, s, m) && Shaped(t, Apply(t, s, m))
    requires m.NodeStep? || m.NodeSends? || m.NodeMarks?
    ensures Sum(NodeWorks(t, Apply(t, s, m).nodes)) < Sum(NodeWorks(t, s.nodes))
  {
    var s', v := Apply(t, s, m), m.node;
    NodeMoveDoesWork(t, s, m, v);
    SumAfterUpdate(NodeWorks(t, s.nodes), v, NodeWork(t, v, s'.nodes[v]));
    assert NodeWorks(t, s'.nodes) == NodeWorks(t, s.nodes)[v := NodeWork(t, v, s'.nodes[v])];
  }

  lemma LinksAfterMove(t: Topology, s: State, m: Move)
    requires Shaped(t, s) && Enabled(t, s, m) && Shaped(t, Apply(t, s, m))
    requires m.LinkStep? || m.LinkSends? || m.LinkMarks?
    ensures Sum(LinkWorks(t, Apply(t, s, m).links)) < Sum(LinkWorks(t, s.links))
    ensures Apply(t, s, m).nodes == s.nodes
  {
    var s', l := Apply(t, s, m), m.link;
    LinkMoveDoesWork(t, s, m, l);
    SumAfterUpdate(LinkWorks(t, s.links), l, LinkWork(t, l, s'.links[l]));
    assert LinkWorks(t, s'.links) == LinkWorks(t, s.links)[l := LinkWork(t, l, s'.links[l])];
  }

  lemma StepDoesWork(t: Topology, s: State, m: Move)
    requires Shaped(t, s) && Enabled(t, s, m)
    ensures Shaped(t, Apply(t, s, m)) && Work(t, Apply(t, s, m)) < Work(t, s)
  {
    StepKeepsShape(t, s, m);
    if m.NodeStep? || m.NodeSends? || m.NodeMarks? {
      NodesAfterMove(t, s, m);
      LinkWorkIgnoresChannels(t, s, m);
    } else {
      LinksAfterMove(t, s, m);
    }
  }

  ghost predicate IsRun(t: Topology, s: State, moves: seq<Move>)
    requires Shaped(t, s)
    decreases |moves|
  {
    moves == [] ||
    (Enabled(t, s, moves[0]) &&
     (StepKeepsShape(t, s, moves[0]); IsRun(t, Apply(t, s, moves[0]), moves[1..])))
  }

  ghost function EndOf(t: Topology, s: State, moves: seq<Move>): State
    requires Shaped(t, s) && IsRun(t, s, moves)
    decreases |moves|
  {
    if moves == [] then s
    else StepKeepsShape(t, s, moves[0]); EndOf(t, Apply(t, s, moves[0]), moves[1..])
  }

  lemma {:induction false} RunKeepsInv(t: Topology, s: State, moves: seq<Move>)
    requires Inv(t, s) && IsRun(t, s, moves)
    ensures Inv(t, EndOf(t, s, moves))
    ensures |moves| + Work(t, EndOf(t, s, moves)) <= Work(t, s)
    decreases |moves|
  {
    if moves != [] {
      StepKeepsInv(t, s, moves[0]);
      StepDoesWork(t, s, moves[0]);
      RunKeepsInv(t, Apply(t, s, moves[0]), moves[1..]);
    }
  }

  ghost predicate AllFinished(t: Topology, s: State) {
    forall x :: !Unfinished(t, s, x)
  }

  /** Progress, for every topology, every interleaving and every traffic within the
      bandwidths. Every run of AdvanceTo is finite; and wherever it stands, either all
      components have reached the target or one of them waits for nobody. The channel is
      large enough as soon as it holds `latency` bursts of an output queue and one burst
      of a link. */
  lemma NetworkAdvances(t: Topology, moves: seq<Move>)
    requires t.WellFormed()
    requires Shaped(t, Initial(t)) && IsRun(t, Initial(t), moves)
    ensures |moves| <= Work(t, Initial(t))
    ensures var s := EndOf(t, Initial(t), moves);
            Shaped(t, s) && (AllFinished(t, s) || exists x :: Unfinished(t, s, x) && !MayBlock(t, s, x))
  {
    InitialInv(t);
    RunKeepsInv(t, Initial(t), moves);
    var s := EndOf(t, Initial(t), moves);
    WorkIsNatural(t, s);
    if !AllFinished(t, s) {
      var some :| Unfinished(t, s, some);
      var x := SomeoneIsFurthestBehind(t, s, some);
      match x
      case TheNode(v) => NodeFurthestBehind(t, s, v);
      case TheLink(l) => LinkFurthestBehind(t, s, l);
    }
  }

  // ------------------------------------------------------- runs with given traffic

  /** How many packets each output queue and each link has to send in each cycle; a burst is
      cut off at the bandwidth. */
  datatype Traffic = Traffic(queue: (nat, nat) -> nat, link: (nat, nat) -> nat)

  function Cut(wanted: nat, bandwidth: nat): nat {
    if wanted < bandwidth then wanted else bandwidth
  }

  /** The move is possible, and the traffic is such that the code makes it: a component sends
      while it has packets to send, and marks its cycle done only after that. In TrySend it
      has no other move than the packet at hand. */
  ghost predicate Due(t: Topology, traffic: Traffic, s: State, m: Move)
    requires Shaped(t, s)
  {
    && Enabled(t, s, m)
    && match m
       case NodeSends(v) =>
         var l := t.outs[v][s.nodes[v].point.port];
         s.nodes[v].point.sent < Cut(traffic.queue(l, s.nodes[v].cycle), t.links[l].outBandwidth)
       case NodeMarks(v) =>
         s.nodes[v].point.port < |t.outs[v]| ==>
           var l := t.outs[v][s.nodes[v].point.port];
           s.nodes[v].point.sent >= Cut(traffic.queue(l, s.nodes[v].cycle), t.links[l].outBandwidth)
       case LinkSends(l) => s.links[l].point.sent < Cut(traffic.link(l, s.links[l].cycle), t.links[l].linkBandwidth)
       case LinkMarks(l) => s.links[l].point.sent >= Cut(traffic.link(l, s.links[l].cycle), t.links[l].linkBandwidth)
       case _ => true
  }

  /** A component that waits for nobody has a move to make, whatever it has to send. */
  lemma UnblockedMoves(t: Topology, traffic: Traffic, s: State, x: Component)
    requires Shaped(t, s) && Unfinished(t, s, x) && !MayBlock(t, s, x)
    ensures exists m :: Due(t, traffic, s, m)
  {
    match x
    case TheNode(v) =>
      var p := s.nodes[v].point;
      if !p.Send? {
        assert Due(t, traffic, s, NodeStep(v));
      } else if p.port < |t.outs[v]| &&
                p.sent < Cut(traffic.queue(t.outs[v][p.port], s.nodes[v].cycle), t.links[t.outs[v][p.port]].outBandwidth) {
        assert Due(t, traffic, s, NodeSends(v));
      } else {
        assert Due(t, traffic, s, NodeMarks(v));
      }
    case TheLink(l) =>
      var p := s.links[l].point;
      if !p.LinkSend? {
        assert Due(t, traffic, s, LinkStep(l));
      } else if p.sent < Cut(traffic.link(l, s.links[l].cycle), t.links[l].linkBandwidth) {
        assert Due(t, traffic, s, LinkSends(l));
      } else {
        assert Due(t, traffic, s, LinkMarks(l));
      }
  }

  ghost predicate Follows(t: Topology, traffic: Traffic, s: State, moves: seq<Move>)
    requires Shaped(t, s)
    decreases |moves|
  {
    moves == [] ||
    (Due(t, traffic, s, moves[0]) &&
     (StepKeepsShape(t, s, moves[0]); Follows(t, traffic, Apply(t, s, moves[0]), moves[1..])))
  }

  lemma {:induction false} FollowingIsRunning(t: Topology, traffic: Traffic, s: State, moves: seq<Move>)
    requires Shaped(t, s) && Follows(t, traffic, s, moves)
    ensures IsRun(t, s, moves)
    decreases |moves|
  {
    if moves != [] {
      StepKeepsShape(t, s, moves[0]);
      FollowingIsRunning(t, traffic, Apply(t, s, moves[0]), moves[1..]);
    }
  }

  /** No deadlock, for any topology, any traffic and any interleaving: where no component has
      a move to make, not even the packet it is about to send, every component has reached
      the target; and no run goes on for ever. */
  lemma StuckMeansFinished(t: Topology, traffic: Traffic, moves: seq<Move>)
    requires t.WellFormed()
    requires Shaped(t, Initial(t)) && Follows(t, traffic, Initial(t), moves)
    ensures IsRun(t, Initial(t), moves) && |moves| <= Work(t, Initial(t))
    ensures var s := EndOf(t, Initial(t), moves);
            Shaped(t, s) && ((exists m :: Due(t, traffic, s, m)) || AllFinished(t, s))
  {
    hide Shaped, Due, Unfinished, MayBlock, Follows, IsRun, EndOf, Work;
    FollowingIsRunning(t, traffic, Initial(t), moves);
    NetworkAdvances(t, moves);
    var s := EndOf(t, Initial(t), moves);
    if !AllFinished(t, s) {
      var x :| Unfinished(t, s, x) && !MayBlock(t, s, x);
      UnblockedMoves(t, traffic, s, x);
    }
  }

  // ------------------------------------------------------- nobody runs ahead

  /** At link l: the channels hold what they can; the source sends for a cycle only if that is
      one of the first latency + 1, or the link has come to it; and the link sends for a cycle
      only if it is 0 or 1, or the target has taken the cycle before. */
  ghost predicate Orderly(t: Topology, s: State, l: nat)
    requires l < |t.links| && l < |s.links| && t.links[l].src < |s.nodes| && t.links[l].dst < |s.nodes|
  {
    var e, k := t.links[l], s.links[l];
    var n, m := s.nodes[e.src], s.nodes[e.dst];
    && k.inbox <= CHANNEL_CAPACITY && k.outbox <= CHANNEL_CAPACITY
    && (n.point.Send? && n.point.port == e.srcPort && n.point.sent > 0 ==> n.cycle <= e.latency || n.cycle <= k.cycle)
    && (k.point.LinkSend? ==>
          k.cycle <= 1 || k.cycle <= m.cycle
          || (k.cycle == m.cycle + 1 && (m.point.Send? || m.point.port > e.dstPort)))
  }

  lemma NodeMoveKeepsOrder(t: Topology, s: State, m: Move, l: nat)
    requires Shaped(t, s) && Enabled(t, s, m) && (m.NodeStep? || m.NodeSends? || m.NodeMarks?)
    requires l < |s.links| && t.Attached(t.links[l], l) && Orderly(t, s, l)
    ensures Orderly(t, Apply(t, s, m), l)
  {
  }

  lemma LinkMoveKeepsOrder(t: Topology, s: State, m: Move, l: nat)
    requires Shaped(t, s) && Enabled(t, s, m) && (m.LinkStep? || m.LinkSends? || m.LinkMarks?)
    requires l < |s.links| && t.Attached(t.links[l], l) && Orderly(t, s, l)
    ensures Orderly(t, Apply(t, s, m), l)
  {
  }

  lemma {:induction false} RunKeepsOrder(t: Topology, s: State, moves: seq<Move>, l: nat)
    requires Shaped(t, s) && IsRun(t, s, moves) && l < |s.links| && t.Attached(t.links[l], l) && Orderly(t, s, l)
    ensures Shaped(t, EndOf(t, s, moves)) && Orderly(t, EndOf(t, s, moves), l)
    decreases |moves|
  {
    if moves != [] {
      var m := moves[0];
      StepKeepsShape(t, s, m);
      if m.NodeStep? || m.NodeSends? || m.NodeMarks? {
        NodeMoveKeepsOrder(t, s, m, l);
      } else {
        LinkMoveKeepsOrder(t, s, m, l);
      }
      hide Orderly, Enabled;
      RunKeepsOrder(t, Apply(t, s, m), moves[1..], l);
    }
  }

  /** Nobody runs ahead. In every run and at every link: what the link has received, its source
      has marked done, and what the target has taken, the link has finished; and neither the
      source nor the link sends for a cycle before the other end has declared it. */
  lemma NobodyRunsAhead(t: Topology, moves: seq<Move>, l: nat)
    requires t.WellFormed() && l < |t.links|
    requires Shaped(t, Initial(t)) && IsRun(t, Initial(t), moves)
    ensures var s := EndOf(t, Initial(t), moves);
            && Shaped(t, s) && t.links[l].src < |s.nodes| && t.links[l].dst < |s.nodes|
            && Received(t, s, l) <= Marked(t, s, l) && Taken(t, s, l) <= s.links[l].cycle
            && Orderly(t, s, l)
  {
    InitialInv(t);
    assert t.Attached(t.links[l], l);
    assert Orderly(t, Initial(t), l);
    RunKeepsInv(t, Initial(t), moves);
    RunKeepsOrder(t, Initial(t), moves, l);
    assert ChannelsBounded(t, EndOf(t, Initial(t), moves), l);
  }
}
