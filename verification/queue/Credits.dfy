/** The flow control of an input queue (internal/core/queue/input_queue.go), counted in
    packets: after every tick the queue turns its free slots into ready declarations for
    coming cycles, `inBandwidth` slots a cycle. */
module Credits {

  datatype Outcome = Done | Overflow | Panic

  /** NewInputQueue panics unless both are positive. */
  datatype RawConfig = Config(capacity: int, inBandwidth: int)
  type Config = k: RawConfig | k.capacity > 0 && k.inBandwidth > 0 witness Config(1, 1)

  /** `decided` holds the ready declarations made so far. */
  datatype State = State(length: int, nextUpdateCycle: int, decided: map<int, bool>)

  /** Publishing a declaration that contradicts an earlier one panics. */
  predicate Contradicted(decided: map<int, bool>, cycle: int, ready: bool) {
    cycle in decided && decided[cycle] != ready
  }

  /** An empty queue at the moment it is connected: cycles 0 and 1 are declared ready. */
  const CONNECTED := State(0, 0, map[0 := true, 1 := true])

  /** Declares the cycles lo, ..., hi ready, and stops at a contradiction. */
  function Declare(s: State, lo: int, hi: int): (State, Outcome)
    decreases hi - lo
  {
    if hi < lo then (s, Done)
    else if Contradicted(s.decided, lo, true) then (s, Panic)
    else Declare(s.(decided := s.decided[lo := true], nextUpdateCycle := lo + 1), lo + 1, hi)
  }

  /** The declarations at the end of Tick(cycle). */
  function Grant(k: Config, s: State, cycle: int): (State, Outcome)
    requires s.length <= k.capacity
  {
    var remain := (k.capacity - s.length) / k.inBandwidth;
    if remain == 0 then
      if Contradicted(s.decided, cycle + 1, false) then (s, Panic)
      else (s.(decided := s.decided[cycle + 1 := false], nextUpdateCycle := cycle + 2), Done)
    else Declare(s, s.nextUpdateCycle, cycle + remain)
  }

  /** Tick(cycle) with `arrivals` packets; the first one without a free slot is an error. */
  function Tick(k: Config, s: State, cycle: int, arrivals: nat): (State, Outcome)
    requires s.length <= k.capacity
  {
    if s.length + arrivals > k.capacity then (s.(length := k.capacity), Overflow)
    else Grant(k, s.(length := s.length + arrivals), cycle)
  }

  /** One cycle of the node: the tick, and then `freed` of the packets are released. */
  datatype Cycle = Cycle(arrivals: nat, freed: nat)

  function Step(k: Config, s: State, cycle: int, c: Cycle): (State, Outcome)
    requires s.length <= k.capacity
  {
    var (t, outcome) := Tick(k, s, cycle, c.arrivals);
    (t.(length := t.length - c.freed), outcome)
  }

  /** Traffic that respects the declarations, and frees no more than is stored. */
  predicate Legal(k: Config, s: State, cycle: int, c: Cycle) {
    && c.arrivals <= (if cycle in s.decided && s.decided[cycle] then k.inBandwidth else 0)
    && c.freed <= s.length + c.arrivals
  }

  /** Runs cycles `first`, `first` + 1, ... and stops at the first failure. */
  function Run(k: Config, s: State, first: nat, cycles: seq<Cycle>): (State, Outcome)
    requires s.length <= k.capacity
    decreases |cycles|
  {
    if cycles == [] then (s, Done)
    else
      StepKeepsCapacity(k, s, first, cycles[0]);
      var (t, outcome) := Step(k, s, first, cycles[0]);
      if outcome != Done then (t, outcome) else Run(k, t, first + 1, cycles[1..])
  }

  predicate LegalRun(k: Config, s: State, first: nat, cycles: seq<Cycle>)
    requires s.length <= k.capacity
    decreases |cycles|
  {
    cycles == [] ||
    (StepKeepsCapacity(k, s, first, cycles[0]);
     var (t, outcome) := Step(k, s, first, cycles[0]);
     Legal(k, s, first, cycles[0]) && (outcome == Done ==> LegalRun(k, t, first + 1, cycles[1..])))
  }

  lemma {:induction false} DeclareKeepsLength(s: State, lo: int, hi: int)
    ensures Declare(s, lo, hi).0.length == s.length
    decreases hi - lo
  {
    if lo <= hi && !Contradicted(s.decided, lo, true) {
      DeclareKeepsLength(s.(decided := s.decided[lo := true], nextUpdateCycle := lo + 1), lo + 1, hi);
    }
  }

  lemma StepKeepsCapacity(k: Config, s: State, cycle: int, c: Cycle)
    requires s.length <= k.capacity
    ensures Step(k, s, cycle, c).0.length <= k.capacity
  {
    if s.length + c.arrivals <= k.capacity {
      var arrived := s.(length := s.length + c.arrivals);
      DeclareKeepsLength(arrived, s.nextUpdateCycle, cycle + (k.capacity - arrived.length) / k.inBandwidth);
    }
  }

  /** One past the last cycle declared. */
  function Horizon(s: State): int {
    if s.nextUpdateCycle < 2 then 2 else s.nextUpdateCycle
  }

  /** The declarations reach exactly up to the horizon, which is past `cycle`. */
  ghost predicate Declared(s: State, cycle: nat) {
    && cycle < Horizon(s)
    && (if cycle == 0 then s.nextUpdateCycle == 0 else cycle + 1 <= s.nextUpdateCycle)
    && (forall c :: c in s.decided <==> 0 <= c < Horizon(s))
  }

  ghost predicate AllReady(s: State, from: int) {
    forall c :: from <= c < Horizon(s) && c in s.decided ==> s.decided[c]
  }

  /** Before Tick(cycle): either the coming cycle is refused and is the last one declared,
      or all cycles declared from it on are ready and there is room for a full burst in
      each. */
  ghost predicate Sound(k: Config, s: State, cycle: nat) {
    && 0 <= s.length <= k.capacity
    && Declared(s, cycle)
    && (if s.decided[cycle]
        then AllReady(s, cycle) && (Horizon(s) - cycle) * k.inBandwidth <= k.capacity - s.length
        else Horizon(s) == cycle + 1)
  }

  lemma {:induction false} DeclareIsSound(s: State, lo: int, hi: int)
    requires forall c :: c in s.decided && lo <= c <= hi ==> s.decided[c]
    requires s.nextUpdateCycle == lo
    ensures Declare(s, lo, hi).1 == Done
    ensures var t := Declare(s, lo, hi).0;
            && t.length == s.length
            && t.nextUpdateCycle == (if hi < lo then lo else hi + 1)
            && (forall c :: c in t.decided <==> c in s.decided || lo <= c <= hi)
            && (forall c :: c in t.decided ==> t.decided[c] == if lo <= c <= hi then true else s.decided[c])
    decreases hi - lo
  {
    if lo <= hi {
      DeclareIsSound(s.(decided := s.decided[lo := true], nextUpdateCycle := lo + 1), lo + 1, hi);
    }
  }

  lemma {:induction false} FitsInQuotient(n: nat, d: nat, m: int)
    requires d > 0 && m * d <= n
    ensures m <= n / d && (n / d) * d <= n
  {
    if m > n / d {
      MulOrder(n / d + 1, m, d);
    }
  }

  lemma MulOrder(x: int, y: int, d: nat)
    requires x <= y
    ensures x * d <= y * d
  {
  }

  /** Granting after the arrivals: the later cycles already declared are ready and covered
      by the free slots, and stay so. */
  lemma GrantIsSound(k: Config, s: State, cycle: nat)
    requires 0 <= s.length <= k.capacity
    requires Declared(s, cycle) && AllReady(s, if cycle == 0 then 0 else cycle + 1)
    requires (Horizon(s) - cycle - 1) * k.inBandwidth <= k.capacity - s.length
    ensures Grant(k, s, cycle).1 == Done
    ensures Sound(k, Grant(k, s, cycle).0, cycle + 1)
    ensures Grant(k, s, cycle).0.length == s.length
  {
    var remain := (k.capacity - s.length) / k.inBandwidth;
    FitsInQuotient(k.capacity - s.length, k.inBandwidth, Horizon(s) - cycle - 1);
    if remain > 0 {
      DeclareIsSound(s, s.nextUpdateCycle, cycle + remain);
      assert Horizon(Grant(k, s, cycle).0) == cycle + 1 + remain;
    }
  }

  /** A burst that arrives in a ready cycle leaves enough room for the later ones. */
  lemma ArrivalsAreCovered(k: Config, s: State, cycle: nat, c: Cycle)
    requires Sound(k, s, cycle) && Legal(k, s, cycle, c)
    ensures s.length + c.arrivals <= k.capacity
    ensures (Horizon(s) - cycle - 1) * k.inBandwidth <= k.capacity - s.length - c.arrivals
    ensures AllReady(s, if cycle == 0 then 0 else cycle + 1)
  {
    var ahead := Horizon(s) - cycle;
    assert ahead * k.inBandwidth == (ahead - 1) * k.inBandwidth + k.inBandwidth;
    MulOrder(0, ahead - 1, k.inBandwidth);
  }

  /** Every legal cycle succeeds and keeps the accounts: afterwards the cycles already
      declared ready, times the bandwidth, still fit in the free slots. */
  lemma StepIsSound(k: Config, s: State, cycle: nat, c: Cycle)
    requires Sound(k, s, cycle) && Legal(k, s, cycle, c)
    ensures Step(k, s, cycle, c).1 == Done
    ensures Sound(k, Step(k, s, cycle, c).0, cycle + 1)
  {
    ArrivalsAreCovered(k, s, cycle, c);
    var arrived := s.(length := s.length + c.arrivals);
    GrantIsSound(k, arrived, cycle);
    FreeingIsSound(k, Grant(k, arrived, cycle).0, cycle + 1, c.freed);
  }

  lemma FreeingIsSound(k: Config, s: State, cycle: nat, freed: nat)
    requires Sound(k, s, cycle) && freed <= s.length
    ensures Sound(k, s.(length := s.length - freed), cycle)
  {
  }

  lemma {:induction false} RunIsSound(k: Config, s: State, first: nat, cycles: seq<Cycle>)
    requires Sound(k, s, first) && LegalRun(k, s, first, cycles)
    ensures Run(k, s, first, cycles).1 == Done
    ensures Sound(k, Run(k, s, first, cycles).0, first + |cycles|)
    decreases |cycles|
  {
    if cycles != [] {
      StepIsSound(k, s, first, cycles[0]);
      RunIsSound(k, Step(k, s, first, cycles[0]).0, first + 1, cycles[1..]);
    }
  }

  /** A queue with room for two bursts never overflows and never contradicts itself, for
      any traffic that respects its declarations and whatever the node frees in between;
      and with less room the very first burst breaks it. */
  lemma TwoBurstsAreNeededAndEnough(k: Config)
    ensures (forall cycles :: LegalRun(k, CONNECTED, 0, cycles) ==> Run(k, CONNECTED, 0, cycles).1 == Done)
            <==> 2 * k.inBandwidth <= k.capacity
  {
    if 2 * k.inBandwidth <= k.capacity {
      forall cycles | LegalRun(k, CONNECTED, 0, cycles)
        ensures Run(k, CONNECTED, 0, cycles).1 == Done
      {
        RunIsSound(k, CONNECTED, 0, cycles);
      }
    } else {
      var burst := [Cycle(k.inBandwidth, 0)];
      FirstBurstFails(k);
      assert LegalRun(k, CONNECTED, 0, burst);
    }
  }

  /** With room for one burst but not for two, Tick(0) takes back the declaration of cycle 1,
      which panics; with less it overflows. */
  lemma FirstBurstFails(k: Config)
    requires k.capacity < 2 * k.inBandwidth
    ensures Step(k, CONNECTED, 0, Cycle(k.inBandwidth, 0)).1 ==
            if k.inBandwidth <= k.capacity then Panic else Overflow
    ensures Run(k, CONNECTED, 0, [Cycle(k.inBandwidth, 0)]).1 != Done
  {
    if k.inBandwidth <= k.capacity {
      assert (k.capacity - k.inBandwidth) / k.inBandwidth == 0;
    }
  }

  /** What the accounts say after any legal run: the coming cycles declared ready all fit. */
  lemma CreditsAreCovered(k: Config, cycles: seq<Cycle>, c: int)
    requires 2 * k.inBandwidth <= k.capacity
    requires LegalRun(k, CONNECTED, 0, cycles)
    ensures var s := Run(k, CONNECTED, 0, cycles).0;
            |cycles| <= c && c in s.decided && s.decided[c] ==>
            (c + 1 - |cycles|) * k.inBandwidth <= k.capacity - s.length
  {
    RunIsSound(k, CONNECTED, 0, cycles);
    var s := Run(k, CONNECTED, 0, cycles).0;
    if |cycles| <= c && c in s.decided && s.decided[c] {
      MulOrder(c + 1 - |cycles|, Horizon(s) - |cycles|, k.inBandwidth);
    }
  }

  /** Nothing more could be granted: when the arrivals of a cycle are stored, a later cycle is
      declared ready if and only if the free slots hold a full burst for it and for each
      cycle before it. */
  lemma CreditsAreExact(k: Config, cycles: seq<Cycle>, c: Cycle, later: int)
    requires 2 * k.inBandwidth <= k.capacity && LegalRun(k, CONNECTED, 0, cycles)
    requires Legal(k, Run(k, CONNECTED, 0, cycles).0, |cycles|, c) && later > |cycles|
    ensures var s := Run(k, CONNECTED, 0, cycles).0;
            && s.length + c.arrivals <= k.capacity
            && var t := Tick(k, s, |cycles|, c.arrivals).0;
            && t.length == s.length + c.arrivals
            && (later in t.decided && t.decided[later] <==>
                (later - |cycles|) * k.inBandwidth <= k.capacity - t.length)
  {
    RunIsSound(k, CONNECTED, 0, cycles);
    hide Run, LegalRun, Tick, Legal, Sound;
    TickIsExact(k, Run(k, CONNECTED, 0, cycles).0, |cycles|, c, later);
  }

  lemma TickIsExact(k: Config, s: State, cycle: nat, c: Cycle, later: int)
    requires Sound(k, s, cycle) && Legal(k, s, cycle, c) && later > cycle
    ensures s.length + c.arrivals <= k.capacity
    ensures var t := Tick(k, s, cycle, c.arrivals).0;
            && t.length == s.length + c.arrivals
            && (later in t.decided && t.decided[later] <==> (later - cycle) * k.inBandwidth <= k.capacity - t.length)
  {
    ArrivalsAreCovered(k, s, cycle, c);
    var arrived := s.(length := s.length + c.arrivals);
    GrantIsSound(k, arrived, cycle);
    GrantIsExact(k, arrived, cycle, later);
    hide Grant, Sound, Declared, AllReady;
  }

  lemma GrantIsExact(k: Config, s: State, cycle: nat, later: int)
    requires 0 <= s.length <= k.capacity && later > cycle
    requires Declared(s, cycle) && AllReady(s, if cycle == 0 then 0 else cycle + 1)
    requires (Horizon(s) - cycle - 1) * k.inBandwidth <= k.capacity - s.length
    ensures var t := Grant(k, s, cycle).0;
            later in t.decided && t.decided[later] <==> (later - cycle) * k.inBandwidth <= k.capacity - s.length
  {
    var remain := (k.capacity - s.length) / k.inBandwidth;
    WithinQuotient(k.capacity - s.length, k.inBandwidth, later - cycle);
    FitsInQuotient(k.capacity - s.length, k.inBandwidth, Horizon(s) - cycle - 1);
    if remain > 0 {
      DeclareIsSound(s, s.nextUpdateCycle, cycle + remain);
    }
  }

  lemma WithinQuotient(n: nat, d: nat, m: int)
    requires d > 0
    ensures m * d <= n <==> m <= n / d
  {
    if m <= n / d {
      MulOrder(m, n / d, d);
    } else {
      MulOrder(n / d + 1, m, d);
    }
  }
}
