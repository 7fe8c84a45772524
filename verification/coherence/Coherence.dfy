/** Caches kept coherent by the directory. A request goes to the directory
    (internal/components/directory/fully_associative.go, HandleMESIRequest); the caches it
    names answer with the snoop helpers (internal/components/cache/coherence.go), dirty data
    is written back when a line is downgraded or recalled, and an entry that the directory
    evicts is recalled from its holders. Data comes from the forwarding cache if its snoop
    provides any, and from memory otherwise. */
module Coherence {
  import opened Directory

  type Value = int

  datatype Line = Line(state: LineState, data: Value)

  /** `latest` is history: the value last written to each address. */
  datatype System = System(
    capacity: nat, entries: map<Addr, Entry>, caches: map<(int, Addr), Line>,
    memory: map<Addr, Value>, latest: map<Addr, Value>)

  function LineAt(s: System, n: int, a: Addr): Line {
    if (n, a) in s.caches then s.caches[(n, a)] else Line(Invalid, 0)
  }

  function At(m: map<Addr, Value>, a: Addr): Value {
    if a in m then m[a] else 0
  }

  /** The nodes a directory entry stands for. */
  function Holders(e: Entry): set<int> {
    match e.state
    case NotPresent => {}
    case DirShared => set n | n in e.sharers
    case _ => {e.owner}
  }

  /** The evict callback: every holder gives the line up, a dirty one writes it back. */
  function Recall(s: System, a: Addr, e: Entry): System {
    s.(caches := map k | k in s.caches ::
                   if k.1 == a && k.0 in Holders(e) then s.caches[k].(state := Invalid) else s.caches[k],
       memory := if LineAt(s, e.owner, a).state == Modified && e.owner in Holders(e)
                 then s.memory[a := LineAt(s, e.owner, a).data] else s.memory)
  }

  function RecallAll(s: System, evicted: seq<Eviction>): System {
    if evicted == [] then s else Recall(s, evicted[0].addr, evicted[0].entry)
  }

  /** A load, or a store that computes the new value from the old one. */
  datatype Access = Load | Store(update: Value -> Value)

  /** What a cache does with a snoop named in the action. */
  function Snooped(action: Action, n: int, state: LineState): (LineState, bool) {
    if n in action.invalidateList then WriteSnoop(state)
    else if n == action.forwarder then ReadSnoop(state)
    else (state, false)
  }

  /** The state in which a missing line is installed. */
  function Installed(granted: EntryState): LineState {
    match granted
    case DirExclusive => Exclusive
    case DirModified => Modified
    case DirShared => Shared
    case NotPresent => Invalid
  }

  /** The data the requester works on. */
  function DataFor(s: System, n: int, a: Addr, action: Action): Value {
    var mine, theirs := LineAt(s, n, a), LineAt(s, action.forwarder, a);
    if mine.state != Invalid then mine.data
    else if Snooped(action, action.forwarder, theirs.state).1 then theirs.data
    else At(s.memory, a)
  }

  /** All caches after the snoops and the access of node n. */
  function Serve(s: System, n: int, a: Addr, action: Action, access: Access): System {
    var mine, theirs := LineAt(s, n, a), LineAt(s, action.forwarder, a);
    var data := DataFor(s, n, a, action);
    var line := match access
      case Store(f) => Line(Modified, f(data))
      case Load => if mine.state != Invalid then mine else Line(Installed(action.newState), data);
    s.(caches := (map k | k in s.caches ::
                    if k.1 == a then s.caches[k].(state := Snooped(action, k.0, s.caches[k].state).0)
                    else s.caches[k])[(n, a) := line],
       memory := if access.Load? && theirs.state == Modified then s.memory[a := theirs.data] else s.memory,
       latest := match access case Store(f) => s.latest[a := f(At(s.latest, a))] case Load => s.latest)
  }

  datatype Event =
    | Request(node: int, addr: Addr, access: Access, victim: Addr)
    | Drop(node: int, addr: Addr)  // a cache replaces a line, writing it back if dirty

  predicate Legal(s: System, e: Event) {
    e.Request? ==> e.node >= 0 && (s.capacity <= |s.entries| ==> e.victim in s.entries)
  }

  function Answer(s: System, e: Event): (map<Addr, Entry>, Action, seq<Eviction>)
    requires e.Request? && Legal(s, e)
  {
    Handle(s.entries, s.capacity, e.addr, e.node, e.access.Store?, e.victim)
  }

  function Step(s: System, e: Event): System
    requires Legal(s, e)
  {
    match e
    case Request(n, a, access, _) =>
      var (entries, action, evicted) := Answer(s, e);
      Serve(RecallAll(s.(entries := entries), evicted), n, a, action, access)
    case Drop(n, a) =>
      var line := LineAt(s, n, a);
      s.(caches := s.caches[(n, a) := Line(Invalid, 0)],
         memory := if line.state == Modified then s.memory[a := line.data] else s.memory)
  }

  /** What a load returns. */
  function Returned(s: System, e: Event): Value
    requires e.Request? && Legal(s, e)
  {
    var (entries, action, evicted) := Answer(s, e);
    DataFor(RecallAll(s.(entries := entries), evicted), e.node, e.addr, action)
  }

  // ------------------------------------------------------------------ the invariant

  predicate Clean(s: System, a: Addr) {
    At(s.memory, a) == At(s.latest, a)
  }

  /** What the directory and the caches agree on for one address. */
  ghost predicate Agrees(s: System, a: Addr) {
    if !InUse(s.entries, a) then
      Clean(s, a) && forall n :: LineAt(s, n, a).state == Invalid
    else
      var e := s.entries[a];
      if e.state == DirShared then
        && Clean(s, a)
        && e.sharers != [] && (forall n :: n in e.sharers ==> n >= 0)
        && forall n :: LineAt(s, n, a).state != Invalid ==>
             LineAt(s, n, a) == Line(Shared, At(s.latest, a)) && n in e.sharers
      else
        var line := LineAt(s, e.owner, a);
        && e.owner >= 0
        && (forall n :: n != e.owner ==> LineAt(s, n, a).state == Invalid)
        && line.state in {Invalid, Exclusive, Modified}
        && (line.state != Invalid ==> line.data == At(s.latest, a))
        && (line.state != Modified ==> Clean(s, a))
  }

  ghost predicate Inv(s: System) {
    && 0 < s.capacity && |s.entries| <= s.capacity
    && forall a :: Agrees(s, a)
  }

  function Empty(capacity: nat): System {
    System(capacity, map[], map[], map[], map[])
  }

  /** A recalled address is nobody's, and memory has its last value. */
  lemma RecallFrees(s: System, a: Addr, e: Entry, entries: map<Addr, Entry>)
    requires a in s.entries && s.entries[a] == e && Agrees(s, a)
    requires !InUse(entries, a)
    ensures Agrees(Recall(s.(entries := entries), a, e), a)
    ensures forall n :: LineAt(Recall(s.(entries := entries), a, e), n, a).state == Invalid
    ensures Clean(Recall(s.(entries := entries), a, e), a)
  {
    var t := Recall(s.(entries := entries), a, e);
    forall n ensures LineAt(t, n, a).state == Invalid {
      assert LineAt(s, n, a).state != Invalid ==> n in Holders(e);
    }
  }

  /** A recall touches one address only. */
  lemma RecallIsLocal(s: System, a: Addr, e: Entry, b: Addr)
    requires b != a
    ensures At(Recall(s, a, e).memory, b) == At(s.memory, b)
    ensures forall n :: LineAt(Recall(s, a, e), n, b) == LineAt(s, n, b)
  {
  }

  /** A line is left as it is, or given up; and without holders memory is left as it is. */
  lemma RecallKeepsOrFrees(s: System, a: Addr, e: Entry)
    ensures forall n :: LineAt(Recall(s, a, e), n, a) == LineAt(s, n, a) || LineAt(Recall(s, a, e), n, a).state == Invalid
    ensures e.state == NotPresent ==> Recall(s, a, e).memory == s.memory
  {
    var t := Recall(s, a, e);
    forall n
      ensures LineAt(t, n, a) == LineAt(s, n, a) || LineAt(t, n, a).state == Invalid
    {
      if (n, a) in s.caches {
        assert (n, a) in t.caches;
      }
    }
  }

  /** Serving a request touches one address only. */
  lemma ServeIsLocal(s: System, n: int, a: Addr, action: Action, access: Access, b: Addr)
    requires b != a
    ensures var t := Serve(s, n, a, action, access);
            && At(t.memory, b) == At(s.memory, b)
            && At(t.latest, b) == At(s.latest, b)
            && forall m :: LineAt(t, m, b) == LineAt(s, m, b)
  {
  }

  /** The line every node is left with. */
  lemma ServedLines(s: System, n: int, a: Addr, action: Action, access: Access)
    ensures var t := Serve(s, n, a, action, access);
            && (forall m :: m != n ==>
                  LineAt(t, m, a) == LineAt(s, m, a).(state := Snooped(action, m, LineAt(s, m, a).state).0))
            && LineAt(t, n, a) == match access
                 case Store(f) => Line(Modified, f(DataFor(s, n, a, action)))
                 case Load => if LineAt(s, n, a).state != Invalid then LineAt(s, n, a)
                              else Line(Installed(action.newState), DataFor(s, n, a, action))
    ensures var t := Serve(s, n, a, action, access);
            && t.entries == s.entries
            && At(t.memory, a) == (if access.Load? && LineAt(s, action.forwarder, a).state == Modified
                                   then LineAt(s, action.forwarder, a).data else At(s.memory, a))
            && At(t.latest, a) == match access case Store(f) => f(At(s.latest, a)) case Load => At(s.latest, a)
  {
    var t := Serve(s, n, a, action, access);
    forall m | m != n
      ensures LineAt(t, m, a) == LineAt(s, m, a).(state := Snooped(action, m, LineAt(s, m, a).state).0)
    {
      if (m, a) !in s.caches {
        assert (m, a) !in t.caches;
      }
    }
  }

  /** A first access: the line is nowhere, and goes to the requester alone. */
  lemma ServeFirst(s: System, n: int, a: Addr, access: Access)
    requires n >= 0 && a in s.entries && s.entries[a] == FirstEntry(n, access.Store?)
    requires Clean(s, a) && forall m :: LineAt(s, m, a).state == Invalid
    ensures DataFor(s, n, a, FIRST_ACCESS) == At(s.latest, a)
    ensures Agrees(Serve(s, n, a, FIRST_ACCESS, access), a)
  {
    ServedLines(s, n, a, FIRST_ACCESS, access);
  }

  /** The directory's answer for a line with an owner. */
  lemma ServeOwned(s: System, n: int, a: Addr, access: Access)
    requires n >= 0 && a in s.entries && Agrees(s, a)
    requires s.entries[a].state == DirExclusive || s.entries[a].state == DirModified
    ensures var (e, action) := Respond(s.entries[a], n, access.Store?);
            && DataFor(s.(entries := s.entries[a := e]), n, a, action) == At(s.latest, a)
            && Agrees(Serve(s.(entries := s.entries[a := e]), n, a, action, access), a)
  {
    var owned := s.entries[a];
    var (e, action) := Respond(owned, n, access.Store?);
    var s' := s.(entries := s.entries[a := e]);
    assert forall m :: LineAt(s', m, a) == LineAt(s, m, a);
    ServedLines(s', n, a, action, access);
    var t := Serve(s', n, a, action, access);
    OwnedData(s, n, a, access.Store?);
    hide Serve, DataFor;
    if access.Store? || owned.owner == n {
      assert forall m :: m != n ==> LineAt(t, m, a).state == Invalid;
    } else {
      assert forall m :: m != n && m != owned.owner ==> LineAt(t, m, a).state == Invalid;
    }
  }

  /** The data an answer leads to. */
  lemma DataOf(s: System, entries: map<Addr, Entry>, n: int, a: Addr, action: Action)
    ensures var mine, theirs := LineAt(s, n, a), LineAt(s, action.forwarder, a);
            DataFor(s.(entries := entries), n, a, action) ==
            if mine.state != Invalid then mine.data
            else if Snooped(action, action.forwarder, theirs.state).1 then theirs.data
            else At(s.memory, a)
  {
    var s' := s.(entries := entries);
    assert LineAt(s', n, a) == LineAt(s, n, a);
    assert LineAt(s', action.forwarder, a) == LineAt(s, action.forwarder, a);
  }

  lemma OwnedData(s: System, n: int, a: Addr, isWrite: bool)
    requires a in s.entries && Agrees(s, a)
    requires s.entries[a].state == DirExclusive || s.entries[a].state == DirModified
    ensures var (e, action) := Respond(s.entries[a], n, isWrite);
            DataFor(s.(entries := s.entries[a := e]), n, a, action) == At(s.latest, a)
  {
    hide DataFor, LineAt, At;
    var (e, action) := Respond(s.entries[a], n, isWrite);
    DataOf(s, s.entries[a := e], n, a, action);
    if s.entries[a].owner != n {
      assert action.forwarder == s.entries[a].owner;
    } else {
      assert action.forwarder == -1 && LineAt(s, -1, a).state == Invalid;
    }
  }

  lemma SharedData(s: System, n: int, a: Addr, isWrite: bool)
    requires a in s.entries && Agrees(s, a) && s.entries[a].state == DirShared
    ensures var (e, action) := Respond(s.entries[a], n, isWrite);
            DataFor(s.(entries := s.entries[a := e]), n, a, action) == At(s.latest, a)
  {
    hide DataFor, LineAt, At;
    var (e, action) := Respond(s.entries[a], n, isWrite);
    DataOf(s, s.entries[a := e], n, a, action);
    assert LineAt(s, action.forwarder, a).state in {Invalid, Shared};
  }

  /** The directory's answer for a shared line. */
  lemma ServeShared(s: System, n: int, a: Addr, access: Access)
    requires n >= 0 && a in s.entries && Agrees(s, a)
    requires s.entries[a].state == DirShared
    ensures var (e, action) := Respond(s.entries[a], n, access.Store?);
            && DataFor(s.(entries := s.entries[a := e]), n, a, action) == At(s.latest, a)
            && Agrees(Serve(s.(entries := s.entries[a := e]), n, a, action, access), a)
  {
    var (e, action) := Respond(s.entries[a], n, access.Store?);
    OthersAreTheRest(s.entries[a].sharers, n);
    var s' := s.(entries := s.entries[a := e]);
    assert forall m :: LineAt(s', m, a) == LineAt(s, m, a);
    ServedLines(s', n, a, action, access);
    var t := Serve(s', n, a, action, access);
    SharedData(s, n, a, access.Store?);
    hide Serve, DataFor;
    if access.Store? {
      assert forall m :: m != n ==> LineAt(t, m, a).state == Invalid;
    } else {
      assert forall m :: m != n ==> LineAt(t, m, a) == LineAt(s, m, a);
    }
  }

  lemma DropAgrees(s: System, n: int, a: Addr, b: Addr)
    requires Agrees(s, b)
    ensures Agrees(Step(s, Drop(n, a)), b)
  {
    var t := Step(s, Drop(n, a));
    assert forall m :: LineAt(t, m, b) == if b == a && m == n then Line(Invalid, 0) else LineAt(s, m, b);
  }

  /** The requested address after a request, and what the requester works on. */
  lemma RequestAgrees(s: System, e: Event)
    requires Inv(s) && Legal(s, e) && e.Request?
    ensures Agrees(Step(s, e), e.addr)
    ensures Returned(s, e) == At(s.latest, e.addr)
  {
    var a := e.addr;
    var (entries, action, evicted) := Answer(s, e);
    assert Agrees(s, a);
    if InUse(s.entries, a) {
      if s.entries[a].state == DirShared {
        ServeShared(s, e.node, a, e.access);
      } else {
        ServeOwned(s, e.node, a, e.access);
      }
    } else {
      var s' := s.(entries := entries);
      var r := RecallAll(s', evicted);
      assert forall m :: LineAt(s', m, a) == LineAt(s, m, a);
      if evicted != [] {
        if evicted[0].addr == a {
          RecallKeepsOrFrees(s', a, evicted[0].entry);
        } else {
          RecallIsLocal(s', evicted[0].addr, evicted[0].entry, a);
        }
      }
      ServeFirst(r, e.node, a, e.access);
    }
  }

  /** Every other address. */
  lemma OthersAgree(s: System, e: Event, b: Addr)
    requires Inv(s) && Legal(s, e) && e.Request? && b != e.addr
    ensures Agrees(Step(s, e), b)
  {
    var (entries, action, evicted) := Answer(s, e);
    var s' := s.(entries := entries);
    var r := RecallAll(s', evicted);
    assert Agrees(s, b);
    assert forall m :: LineAt(s', m, b) == LineAt(s, m, b);
    ServeIsLocal(r, e.node, e.addr, action, e.access, b);
    if evicted != [] {
      if b == evicted[0].addr {
        RecallFrees(s, b, evicted[0].entry, entries);
      } else {
        RecallIsLocal(s', evicted[0].addr, evicted[0].entry, b);
      }
    }
  }

  lemma TableFits(s: System, e: Event)
    requires Inv(s) && Legal(s, e) && e.Request?
    ensures |Step(s, e).entries| <= s.capacity && Step(s, e).capacity == s.capacity
  {
    var (entries, action, evicted) := Answer(s, e);
    if InUse(s.entries, e.addr) {
      SizeAfterUpdate(s.entries, e.addr, entries[e.addr]);
    } else {
      var room := if evicted == [] then s.entries else s.entries - {e.victim};
      SizeAfterInsert(room, e.addr, entries[e.addr]);
    }
  }

  lemma StepKeepsInv(s: System, e: Event)
    requires Inv(s) && Legal(s, e)
    ensures Inv(Step(s, e))
    ensures e.Request? ==> Returned(s, e) == At(s.latest, e.addr)
  {
    match e
    case Request(_, a, _, _) =>
      TableFits(s, e);
      RequestAgrees(s, e);
      forall b | b != a ensures Agrees(Step(s, e), b) { OthersAgree(s, e, b); }
    case Drop(n, a) =>
      forall b ensures Agrees(Step(s, e), b) { DropAgrees(s, n, a, b); }
  }

  ghost predicate LegalRun(s: System, events: seq<Event>)
    decreases |events|
  {
    events == [] || (Legal(s, events[0]) && LegalRun(Step(s, events[0]), events[1..]))
  }

  ghost function Run(s: System, events: seq<Event>): System
    requires LegalRun(s, events)
    decreases |events|
  {
    if events == [] then s else Run(Step(s, events[0]), events[1..])
  }

  lemma {:induction false} RunKeepsInv(s: System, events: seq<Event>)
    requires Inv(s) && LegalRun(s, events)
    ensures Inv(Run(s, events))
    decreases |events|
  {
    if events != [] {
      StepKeepsInv(s, events[0]);
      RunKeepsInv(Step(s, events[0]), events[1..]);
    }
  }

  /** Single writer: after any sequence of requests, directory evictions and silent cache
      replacements, at most one cache holds a line exclusively or modified, and then no
      other cache holds it at all; and only nodes the directory lists hold a line. */
  lemma SingleWriter(capacity: nat, events: seq<Event>, a: Addr, n: int, m: int)
    requires 0 < capacity && LegalRun(Empty(capacity), events)
    ensures var s := Run(Empty(capacity), events);
            && (LineAt(s, n, a).state in {Exclusive, Modified} && m != n ==> LineAt(s, m, a).state == Invalid)
            && (LineAt(s, n, a).state != Invalid ==> a in s.entries && n in Holders(s.entries[a]))
  {
    RunKeepsInv(Empty(capacity), events);
    assert Agrees(Run(Empty(capacity), events), a);
  }

  /** The protocol is MESI: no line is ever in the owned state. */
  lemma NobodyOwns(capacity: nat, events: seq<Event>, a: Addr, n: int)
    requires 0 < capacity && LegalRun(Empty(capacity), events)
    ensures LineAt(Run(Empty(capacity), events), n, a).state != Owned
  {
    RunKeepsInv(Empty(capacity), events);
    assert Agrees(Run(Empty(capacity), events), a);
  }

  /** Freshness: every load returns, and every store starts from, the value last written to
      the address; and a valid line always holds that value. */
  lemma ReadsAreFresh(capacity: nat, events: seq<Event>, e: Event)
    requires 0 < capacity && LegalRun(Empty(capacity), events)
    requires e.Request? && Legal(Run(Empty(capacity), events), e)
    ensures var s := Run(Empty(capacity), events);
            && Returned(s, e) == At(s.latest, e.addr)
            && forall n :: LineAt(s, n, e.addr).state != Invalid ==> LineAt(s, n, e.addr).data == At(s.latest, e.addr)
  {
    RunKeepsInv(Empty(capacity), events);
    var s := Run(Empty(capacity), events);
    StepKeepsInv(s, e);
    assert Agrees(s, e.addr);
  }

  // ------------------------------------------------ exact holders without silent drops

  /** Every node the directory lists for the address holds it. */
  ghost predicate Listed(s: System, a: Addr) {
    InUse(s.entries, a) ==> forall n :: n in Holders(s.entries[a]) ==> LineAt(s, n, a).state != Invalid
  }

  lemma OtherIsListed(s: System, e: Event, b: Addr)
    requires Legal(s, e) && e.Request? && Listed(s, b) && b != e.addr
    ensures Listed(Step(s, e), b)
  {
    hide Respond, Serve, Recall;
    var (entries, action, evicted) := Answer(s, e);
    var s' := s.(entries := entries);
    var r := RecallAll(s', evicted);
    assert forall m :: LineAt(s', m, b) == LineAt(s, m, b);
    RequestKeepsEntries(s, e);
    if evicted != [] && evicted[0].addr != b {
      RecallIsLocal(s', evicted[0].addr, evicted[0].entry, b);
    }
    ServeIsLocal(r, e.node, e.addr, action, e.access, b);
  }

  /** Recalling and serving leave the directory as Handle has left it. */
  lemma RequestKeepsEntries(s: System, e: Event)
    requires Legal(s, e) && e.Request?
    ensures Step(s, e).entries == Answer(s, e).0
  {
  }

  lemma ServedIsListed(s: System, e: Event)
    requires Legal(s, e) && e.Request? && Agrees(s, e.addr) && Listed(s, e.addr)
    ensures Listed(Step(s, e), e.addr)
  {
    var (entries, action, evicted) := Answer(s, e);
    var r := RecallAll(s.(entries := entries), evicted);
    ServedLines(r, e.node, e.addr, action, e.access);
    RequestKeepsEntries(s, e);
    if InUse(s.entries, e.addr) {
      assert forall m :: LineAt(r, m, e.addr) == LineAt(s, m, e.addr);
      var (entry, answer) := Respond(s.entries[e.addr], e.node, e.access.Store?);
      assert entries[e.addr] == entry && action == answer;
      forall m | m in Holders(entry) && m != e.node
        ensures LineAt(Step(s, e), m, e.addr).state != Invalid
      {
        var line := LineAt(s, m, e.addr).state;
        if line in {Shared, Exclusive, Modified} {
          SurvivorsAreListed(s.entries[e.addr], e.node, e.access.Store?, m, line);
        }
      }
    } else {
      assert entries[e.addr] == FirstEntry(e.node, e.access.Store?) && Holders(entries[e.addr]) == {e.node};
    }
  }

  /** Whoever stays on the list, besides the requester, was on it and is not invalidated. */
  lemma SurvivorsAreListed(e: Entry, n: int, isWrite: bool, m: int, line: LineState)
    requires e.state != NotPresent && m in Holders(Respond(e, n, isWrite).0) && m != n
    requires line in {Shared, Exclusive, Modified}
    ensures m in Holders(e) && Snooped(Respond(e, n, isWrite).1, m, line).0 != Invalid
  {
    assert !isWrite && Respond(e, n, isWrite).1.invalidateList == [];
  }

  lemma RequestIsListed(s: System, e: Event, b: Addr)
    requires Inv(s) && Legal(s, e) && e.Request? && Listed(s, b)
    ensures Listed(Step(s, e), b)
  {
    hide Listed, Step;
    if b == e.addr {
      assert Agrees(s, b);
      ServedIsListed(s, e);
    } else {
      OtherIsListed(s, e, b);
    }
  }

  lemma {:induction false} RunIsListed(s: System, events: seq<Event>)
    requires Inv(s) && LegalRun(s, events)
    requires forall i :: 0 <= i < |events| ==> events[i].Request?
    requires forall a :: Listed(s, a)
    ensures forall a :: Listed(Run(s, events), a)
    decreases |events|
  {
    if events != [] {
      StepKeepsInv(s, events[0]);
      forall b ensures Listed(Step(s, events[0]), b) { RequestIsListed(s, events[0], b); }
      RunIsListed(Step(s, events[0]), events[1..]);
    }
  }

  /** While no cache replaces lines on its own, the directory's holders of a line (the owner
      if it is exclusive or modified, the sharers if it is shared) are exactly the caches
      that hold it. */
  lemma HoldersAreExact(capacity: nat, events: seq<Event>, a: Addr, n: int)
    requires 0 < capacity && LegalRun(Empty(capacity), events)
    requires forall i :: 0 <= i < |events| ==> events[i].Request?
    ensures var s := Run(Empty(capacity), events);
            LineAt(s, n, a).state != Invalid <==> a in s.entries && n in Holders(s.entries[a])
  {
    RunKeepsInv(Empty(capacity), events);
    RunIsListed(Empty(capacity), events);
    var s := Run(Empty(capacity), events);
    assert Agrees(s, a) && Listed(s, a);
  }

  // ------------------------------------------------ where data comes from

  /** The answer points at somebody who has the data: memory, or a forwarder whose snoop
      provides it. */
  predicate NamesSupplier(s: System, e: Event)
    requires e.Request? && Legal(s, e)
  {
    var action := Answer(s, e).1;
    action.needMemory || Snooped(action, action.forwarder, LineAt(s, action.forwarder, e.addr).state).1
  }

  /** Where the answer leaves a gap. After any run, for a requester that does not hold the
      line, the answer names a supplier if and only if the directory has no entry in use for
      the line, or one that names another owner who still holds it. A shared line is
      never supplied: the forwarder is a sharer, and sharers answer snoops without data. Nor
      is a line whose owner has replaced it, whoever asks. */
  lemma SuppliersOfData(capacity: nat, events: seq<Event>, e: Event)
    requires 0 < capacity && LegalRun(Empty(capacity), events)
    requires e.Request? && Legal(Run(Empty(capacity), events), e)
    requires LineAt(Run(Empty(capacity), events), e.node, e.addr).state == Invalid
    ensures var s := Run(Empty(capacity), events);
            NamesSupplier(s, e) <==>
            (InUse(s.entries, e.addr) ==>
               && s.entries[e.addr].state != DirShared
               && s.entries[e.addr].owner != e.node
               && LineAt(s, s.entries[e.addr].owner, e.addr).state != Invalid)
  {
    RunKeepsInv(Empty(capacity), events);
    assert Agrees(Run(Empty(capacity), events), e.addr);
  }

  // ------------------------------------------------ what the directory answers

  /** The nodes an entry lists, in the order in which they came to the line. */
  function Listing(e: Entry): seq<int> {
    match e.state
    case NotPresent => []
    case DirShared => e.sharers
    case _ => [e.owner]
  }

  function ListingAt(s: System, a: Addr): seq<int> {
    if a in s.entries then Listing(s.entries[a]) else []
  }

  predicate Once(s: seq<int>) {
    forall i, j :: 0 <= i < j < |s| ==> s[i] != s[j]
  }

  /** `part` is `s` without node n, in the same order. */
  ghost predicate Rest(s: seq<int>, n: int, part: seq<int>) {
    if n in s then exists i :: 0 <= i < |s| && s[i] == n && part == s[..i] + s[i + 1..] else part == s
  }

  lemma {:induction false} OthersInOrder(s: seq<int>, n: int)
    requires Once(s)
    ensures Rest(s, n, Others(s, n))
  {
    if s != [] {
      var m := |s| - 1;
      OthersInOrder(s[..m], n);
      LastOfOthers(s, n);
      hide Others;
      OneMoreRest(s, n, Others(s[..m], n));
    }
  }

  lemma LastOfOthers(s: seq<int>, n: int)
    requires s != []
    ensures Others(s, n) == Others(s[..|s| - 1], n) + if s[|s| - 1] == n then [] else [s[|s| - 1]]
  {
    assert Others(s[..|s| - 1], n) + [] == Others(s[..|s| - 1], n);
  }

  lemma RestAt(s: seq<int>, n: int, i: nat, part: seq<int>)
    requires i < |s| && s[i] == n && part == s[..i] + s[i + 1..]
    ensures Rest(s, n, part)
  {
  }

  lemma CutIn(s: seq<int>, i: nat)
    requires i < |s| - 1
    ensures var m := |s| - 1;
            (s[..m][..i] + s[..m][i + 1..]) + [s[m]] == s[..i] + s[i + 1..]
  {
  }

  lemma OneMoreRest(s: seq<int>, n: int, part: seq<int>)
    requires s != [] && Once(s) && Rest(s[..|s| - 1], n, part)
    ensures Rest(s, n, part + if s[|s| - 1] == n then [] else [s[|s| - 1]])
  {
    var m := |s| - 1;
    if s[m] == n {
      assert n !in s[..m] && part == s[..m];
      hide Rest;
      RestAt(s, n, m, part + []);
    } else if n in s[..m] {
      var i :| 0 <= i < m && s[..m][i] == n && part == s[..m][..i] + s[..m][i + 1..];
      hide Rest;
      CutIn(s, i);
      RestAt(s, n, i, part + [s[m]]);
    } else {
      assert s == s[..m] + [s[m]];
      assert n !in s && part == s[..m];
    }
  }

  ghost predicate AllListedOnce(s: System) {
    forall a :: Once(ListingAt(s, a))
  }

  /** The answer for an entry in use, in terms of its list. */
  ghost predicate Follows(e: Entry, n: int, isWrite: bool, e': Entry, action: Action) {
    var list := Listing(e);
    && list != [] && !action.needMemory
    && action.forwarder == (if n in list then -1 else list[0])
    && (if isWrite then Rest(list, n, action.invalidateList) else action.invalidateList == [])
    && action.grantExclusive == isWrite
    && Listing(e') == (if isWrite then [n] else if n in list then list else list + [n])
    && e'.state == action.newState
    && action.newState == (if isWrite then DirModified else if e.state != DirShared && list == [n] then e.state else DirShared)
  }

  lemma OwnedFollows(e: Entry, n: int, isWrite: bool)
    requires e.state == DirExclusive || e.state == DirModified
    ensures Follows(e, n, isWrite, Respond(e, n, isWrite).0, Respond(e, n, isWrite).1)
    ensures Once(Listing(Respond(e, n, isWrite).0))
  {
    var (e', action) := Respond(e, n, isWrite);
    assert Rest([e.owner], n, if n == e.owner then [] else [e.owner]) by {
      assert [e.owner][..0] + [e.owner][1..] == [];
    }
    hide Rest;
  }

  lemma SharedFollows(e: Entry, n: int, isWrite: bool)
    requires e.state == DirShared && e.sharers != [] && Once(e.sharers)
    ensures Follows(e, n, isWrite, Respond(e, n, isWrite).0, Respond(e, n, isWrite).1)
    ensures Once(Listing(Respond(e, n, isWrite).0))
  {
    OthersInOrder(e.sharers, n);
    if n !in e.sharers {
      OneMoreOnce(e.sharers, n);
    }
    hide Rest, Others, Once;
    assert Once([n]) by { OnceAlone(n); }
  }

  lemma OneMoreOnce(s: seq<int>, n: int)
    requires Once(s) && n !in s
    ensures Once(s + [n])
  {
  }

  lemma OnceAlone(n: int)
    ensures Once([n])
  {
  }

  lemma RespondFollows(e: Entry, n: int, isWrite: bool)
    requires e.state != NotPresent && Listing(e) != [] && Once(Listing(e))
    ensures Follows(e, n, isWrite, Respond(e, n, isWrite).0, Respond(e, n, isWrite).1)
    ensures Once(Listing(Respond(e, n, isWrite).0))
  {
    hide Respond, Follows;
    if e.state == DirShared {
      SharedFollows(e, n, isWrite);
    } else {
      OwnedFollows(e, n, isWrite);
    }
  }

  /** The entries after a request: that of its address, and no other, except for one that
      made room. */
  lemma EntriesAfter(s: System, e: Event, b: Addr)
    requires Legal(s, e) && e.Request?
    ensures var entries := Step(s, e).entries;
            if b != e.addr then b in entries ==> b in s.entries && entries[b] == s.entries[b]
            else b in entries && entries[b] ==
                 if InUse(s.entries, b) then Respond(s.entries[b], e.node, e.access.Store?).0
                 else FirstEntry(e.node, e.access.Store?)
    ensures Answer(s, e).1 == if InUse(s.entries, e.addr) then Respond(s.entries[e.addr], e.node, e.access.Store?).1
                              else FIRST_ACCESS
  {
    RequestKeepsEntries(s, e);
    hide Step, Respond;
  }

  lemma ListedOnceAfter(s: System, e: Event, b: Addr)
    requires Legal(s, e) && AllListedOnce(s) && (e.Request? ==> Agrees(s, e.addr))
    ensures Once(ListingAt(Step(s, e), b))
  {
    assert Once(ListingAt(s, b));
    if e.Request? {
      EntriesAfter(s, e, b);
      if b == e.addr && InUse(s.entries, b) {
        RespondFollows(s.entries[b], e.node, e.access.Store?);
      }
      hide Step, Respond;
    }
  }

  lemma {:induction false} RunListsOnce(s: System, events: seq<Event>)
    requires Inv(s) && LegalRun(s, events) && AllListedOnce(s)
    ensures AllListedOnce(Run(s, events))
    decreases |events|
  {
    if events != [] {
      StepKeepsInv(s, events[0]);
      forall b ensures Once(ListingAt(Step(s, events[0]), b)) { ListedOnceAfter(s, events[0], b); }
      hide Step;
      RunListsOnce(Step(s, events[0]), events[1..]);
    }
  }

  /** What the directory answers after any run, in terms of the list of nodes it has for the
      line. An empty list sends the requester to memory, and a requester that is not listed
      to the node that has been listed longest; one that is listed is sent nowhere. A write
      invalidates everybody else, in the order of the list. The requester gets the line for
      itself exactly when it writes or is the first; then it is the only one listed, and
      otherwise it goes to the end of the list, unless it is there. */
  lemma AnswersFollowTheList(capacity: nat, events: seq<Event>, e: Event)
    requires 0 < capacity && LegalRun(Empty(capacity), events)
    requires e.Request? && Legal(Run(Empty(capacity), events), e)
    ensures var s := Run(Empty(capacity), events);
            var list, action := ListingAt(s, e.addr), Answer(s, e).1;
            && Once(list)
            && action.needMemory == (list == [])
            && action.forwarder == (if list == [] || e.node in list then -1 else list[0])
            && (if e.access.Store? then Rest(list, e.node, action.invalidateList) else action.invalidateList == [])
            && action.grantExclusive == (list == [] || e.access.Store?)
            && ListingAt(Step(s, e), e.addr) ==
               (if list == [] || e.access.Store? then [e.node] else if e.node in list then list else list + [e.node])
  {
    var s := Run(Empty(capacity), events);
    ReachedLists(capacity, events, e);
    EntriesAfter(s, e, e.addr);
    hide Step, Run, LegalRun, Respond, Answer, Legal;
  }

  lemma ReachedLists(capacity: nat, events: seq<Event>, e: Event)
    requires 0 < capacity && LegalRun(Empty(capacity), events)
    requires e.Request? && Legal(Run(Empty(capacity), events), e)
    ensures var s := Run(Empty(capacity), events);
            && Once(ListingAt(s, e.addr)) && (InUse(s.entries, e.addr) <==> ListingAt(s, e.addr) != [])
            && (InUse(s.entries, e.addr) ==>
                  var (e', action) := Respond(s.entries[e.addr], e.node, e.access.Store?);
                  Follows(s.entries[e.addr], e.node, e.access.Store?, e', action))
  {
    var s := Run(Empty(capacity), events);
    RunKeepsInv(Empty(capacity), events);
    RunListsOnce(Empty(capacity), events);
    assert Agrees(s, e.addr) && Once(ListingAt(s, e.addr));
    hide Step, Run, LegalRun, Respond, Legal;
    if InUse(s.entries, e.addr) {
      RespondFollows(s.entries[e.addr], e.node, e.access.Store?);
    }
  }

  /** The state the requester is granted is the one the entry is left in: exclusive for the
      first access, modified for any other write, shared for a read of a line that others
      are listed for, and as it was for a read by its owner. */
  lemma GrantsFollowTheEntry(capacity: nat, events: seq<Event>, e: Event)
    requires 0 < capacity && LegalRun(Empty(capacity), events)
    requires e.Request? && Legal(Run(Empty(capacity), events), e)
    ensures var s := Run(Empty(capacity), events);
            var list, t := ListingAt(s, e.addr), Step(s, e);
            && e.addr in t.entries && t.entries[e.addr].state == Answer(s, e).1.newState
            && Answer(s, e).1.newState ==
               if list == [] then DirExclusive
               else if e.access.Store? then DirModified
               else if s.entries[e.addr].state != DirShared && list == [e.node] then s.entries[e.addr].state
               else DirShared
  {
    var s := Run(Empty(capacity), events);
    ReachedLists(capacity, events, e);
    EntriesAfter(s, e, e.addr);
    hide Step, Run, LegalRun, Respond, Answer, Legal;
  }

  /** A requester that gets the line for itself is afterwards the only one to hold it. */
  lemma GrantedAlone(capacity: nat, events: seq<Event>, e: Event, n: int)
    requires 0 < capacity && LegalRun(Empty(capacity), events)
    requires e.Request? && Legal(Run(Empty(capacity), events), e)
    ensures var s := Run(Empty(capacity), events);
            Answer(s, e).1.grantExclusive && n != e.node ==> LineAt(Step(s, e), n, e.addr).state == Invalid
  {
    var s := Run(Empty(capacity), events);
    RunKeepsInv(Empty(capacity), events);
    AnswersFollowTheList(capacity, events, e);
    GrantsFollowTheEntry(capacity, events, e);
    StepKeepsInv(s, e);
    assert Agrees(Step(s, e), e.addr);
    hide Step, Run, LegalRun, Answer;
  }

  /** Entries stay. After any run, a request takes an entry for another line off the table if
      and only if its own line has none, the table is full and the choice falls on that entry;
      then the entry is reported as it was, and its line is in no cache afterwards. Nothing
      else is reported, and all other entries stay as they are. */
  lemma EntriesStay(capacity: nat, events: seq<Event>, e: Event, b: Addr)
    requires 0 < capacity && LegalRun(Empty(capacity), events)
    requires e.Request? && Legal(Run(Empty(capacity), events), e) && b != e.addr
    ensures var s := Run(Empty(capacity), events);
            var t := Step(s, e);
            var leaves := ListingAt(s, e.addr) == [] && |s.entries| == capacity && b == e.victim;
            && (b in t.entries <==> b in s.entries && !leaves)
            && (b in t.entries ==> t.entries[b] == s.entries[b])
            && (leaves ==> b in s.entries && Answer(s, e).2 == [Eviction(b, s.entries[b])]
                           && forall n :: LineAt(t, n, b).state == Invalid)
            && (ListingAt(s, e.addr) != [] || |s.entries| < capacity ==> Answer(s, e).2 == [])
  {
    var s := Run(Empty(capacity), events);
    ReachedLists(capacity, events, e);
    RunKeepsInv(Empty(capacity), events);
    RunKeepsCapacity(Empty(capacity), events);
    StepKeepsInv(s, e);
    assert Agrees(Step(s, e), b);
    RequestKeepsEntries(s, e);
    hide Step, Run, LegalRun, Respond;
  }

  lemma {:induction false} RunKeepsCapacity(s: System, events: seq<Event>)
    requires LegalRun(s, events)
    ensures Run(s, events).capacity == s.capacity
    decreases |events|
  {
    if events != [] {
      RunKeepsCapacity(Step(s, events[0]), events[1..]);
    }
  }

  lemma RunOfTwo(s: System, e: Event, e': Event)
    requires Legal(s, e) && Legal(Step(s, e), e')
    ensures LegalRun(s, [e, e']) && Run(s, [e, e']) == Step(Step(s, e), e')
  {
    hide Step, Legal;
    var s1, s2 := Step(s, e), Step(Step(s, e), e');
    assert [e, e'][1..] == [e'] && [e'][1..] == [];
    assert LegalRun(s2, []) && Run(s2, []) == s2;
    assert LegalRun(s1, [e']) && Run(s1, [e']) == s2;
  }

  /** The third of three nodes that load a line is told of a sharer, and gets no data from
      it. */
  lemma ThirdReaderHasNoSupplier(capacity: nat, a: Addr)
    requires 0 < capacity
    ensures var events := [Request(0, a, Load, a), Request(1, a, Load, a)];
            && LegalRun(Empty(capacity), events)
            && Legal(Run(Empty(capacity), events), Request(2, a, Load, a))
            && Answer(Run(Empty(capacity), events), Request(2, a, Load, a)).1.forwarder == 0
            && !NamesSupplier(Run(Empty(capacity), events), Request(2, a, Load, a))
  {
    var s0 := Empty(capacity);
    var s1 := Step(s0, Request(0, a, Load, a));
    assert s1.entries == map[a := Entry(DirExclusive, [0], 0)] && LineAt(s1, 0, a).state == Exclusive;
    RunOfTwo(s0, Request(0, a, Load, a), Request(1, a, Load, a));
    var s2 := Step(s1, Request(1, a, Load, a));
    assert s2.entries[a] == Entry(DirShared, [0, 1], -1) && LineAt(s2, 0, a).state == Shared;
  }

  /** A node that loads a line, replaces it, and is then the owner that another node is sent
      to, has no data either; and gets none itself when it asks again. */
  lemma FormerOwnerHasNoData(capacity: nat, a: Addr, n: int)
    requires 0 < capacity && n in {0, 1}
    ensures var events := [Request(0, a, Load, a), Drop(0, a)];
            && LegalRun(Empty(capacity), events)
            && Legal(Run(Empty(capacity), events), Request(n, a, Load, a))
            && !NamesSupplier(Run(Empty(capacity), events), Request(n, a, Load, a))
  {
    var s0 := Empty(capacity);
    var s1 := Step(s0, Request(0, a, Load, a));
    assert s1.entries == map[a := Entry(DirExclusive, [0], 0)];
    RunOfTwo(s0, Request(0, a, Load, a), Drop(0, a));
    var s2 := Step(s1, Drop(0, a));
    assert LineAt(s2, 0, a).state == Invalid && LineAt(s2, -1, a).state == Invalid;
  }
}
