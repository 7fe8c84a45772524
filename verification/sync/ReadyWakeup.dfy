/** Ready, IsReadyNonBlocking and UpdateReady of ComponentSync as a state machine over their atomic steps
    (internal/core/ahead_port/sync.go). One upstream goroutine asks, one downstream
    goroutine publishes. `readyUntil` is read without a lock; `readyStates` only inside
    the critical sections of `waiterMu`, which the publisher's slow path keeps while it
    notifies. A critical section is one step; the lock is held in between exactly when
    the publisher notifies from its slow path. */
module ReadyWakeup {
  import opened ReadyBoard

  datatype Waiter =
    | Idle
    | FastCheck(cycle: int)    // cycle < readyUntil, lock-free
    | StoreTarget(cycle: int)  // waitingForReady := cycle
    | StoreFlag(cycle: int)    // readyWaiting := 1
    | LoopCheck(cycle: int)    // cycle < readyUntil, lock-free, in the loop
    | Lookup(cycle: int)       // checkStatesAndPrune under the lock
    | Receive(cycle: int)      // <-readyNotify, blocks while there is no token
    | ClearFlag(cycle: int, answer: bool)  // deferred readyWaiting := 0, then return
    | PeekFast(cycle: int)     // IsReadyNonBlocking: cycle < readyUntil, lock-free
    | PeekSection(cycle: int)  // its second look, under the lock

  datatype Publisher =
    | Resting
    | TryFast(cycle: int)      // readyUntil == cycle ?, lock-free; only for a ready decision
    | FastSection(cycle: int)  // first critical section of UpdateReady
    | Section(cycle: int, ready: bool)  // second critical section of UpdateReady
    | JumpSection(cycle: int)  // critical section of SetReadyUntil
    | LoadFlag(cycle: int, locked: bool)
    | LoadTarget(cycle: int, locked: bool)
    | Send(cycle: int, locked: bool)
    | Unlock                   // deferred unlock
    | Panicked

  /** `decisions`, `floor` and `answers` are history: the decisions as first published, the
      least cycle that may still be asked for, and what Ready and IsReadyNonBlocking have
      returned. */
  datatype State = State(
    board: Board, flag: bool, target: int, token: bool,
    waiter: Waiter, publisher: Publisher,
    decisions: map<int, bool>, floor: int, answers: seq<(int, bool)>, peeks: seq<(int, Answer)>)

  datatype Choice =
    | CallReady(cycle: int)
    | CallPeek(cycle: int)
    | CallUpdate(cycle: int, ready: bool)
    | CallJump(cycle: int)
    | WaiterStep
    | PublisherStep

  const INITIAL := State(Board(0, []), false, 0, false, Idle, Resting, map[], 0, [], [])

  predicate Locked(p: Publisher) {
    p == Unlock || ((p.LoadFlag? || p.LoadTarget? || p.Send?) && p.locked)
  }

  predicate WaiterEnabled(s: State) {
    && s.waiter != Idle
    && (s.waiter.Receive? ==> s.token)
    && (s.waiter.Lookup? || s.waiter.PeekSection? ==> !Locked(s.publisher))
  }

  /** Ready(c) has its answer; `flagged` says whether the flag is still to be cleared. */
  function Return(s: State, c: int, answer: bool, flagged: bool): State {
    s.(waiter := if flagged then ClearFlag(c, answer) else Idle,
       floor := if answer then c else c + 1,
       answers := s.answers + [(c, answer)])
  }

  /** IsReadyNonBlocking(c) has its answer; it changes nothing. */
  function Peeked(s: State, c: int, answer: Answer): State {
    s.(waiter := Idle, peeks := s.peeks + [(c, answer)])
  }

  function StepWaiter(s: State): State
    requires WaiterEnabled(s)
  {
    match s.waiter
    case FastCheck(c) =>
      if c < s.board.readyUntil then Return(s, c, true, false) else s.(waiter := StoreTarget(c))
    case StoreTarget(c) => s.(target := c, waiter := StoreFlag(c))
    case StoreFlag(c) => s.(flag := true, waiter := LoopCheck(c))
    case LoopCheck(c) =>
      if c < s.board.readyUntil then Return(s, c, true, true) else s.(waiter := Lookup(c))
    case Lookup(c) =>
      if s.board.At(c) == Unset then s.(waiter := Receive(c))
      else Return(s.(board := Prune(s.board, c)), c, s.board.At(c) == Ready, true)
    case Receive(c) => s.(token := false, waiter := LoopCheck(c))
    case ClearFlag(_, _) => s.(flag := false, waiter := Idle)
    case PeekFast(c) =>
      if c < s.board.readyUntil then Peeked(s, c, Decided(true)) else s.(waiter := PeekSection(c))
    case PeekSection(c) => Peeked(s, c, AnswerOf(s.board.At(c)))
  }

  /** A decision enters the board, and the history if the cycle was undecided. */
  function Record(s: State, c: int, ready: bool): State {
    s.(board := Publish(s.board, c, ready),
       decisions := if s.board.At(c) == Unset then s.decisions[c := ready] else s.decisions)
  }

  function StepPublisher(s: State): State
    requires s.publisher != Resting && s.publisher != Panicked
  {
    match s.publisher
    case TryFast(c) =>
      if s.board.readyUntil == c then s.(publisher := FastSection(c)) else s.(publisher := Section(c, true))
    case FastSection(c) =>
      if s.board.readyUntil == c && s.board.states == []
      then Record(s, c, true).(publisher := LoadFlag(c, false))
      else s.(publisher := Section(c, true))
    case Section(c, r) =>
      if Contradicts(s.board, c, r) then s.(publisher := Panicked)
      else if s.board.At(c) != Unset then s.(publisher := Unlock)
      else Record(s, c, r).(publisher := LoadFlag(c, true))
    case JumpSection(c) =>
      if c <= s.board.readyUntil then s.(publisher := Unlock)
      else s.(board := JumpTo(s.board, c), publisher := LoadFlag(c, true))
    case LoadFlag(c, l) => s.(publisher := if s.flag then LoadTarget(c, l) else Finish(l))
    case LoadTarget(c, l) => s.(publisher := if c >= s.target then Send(c, l) else Finish(l))
    case Send(c, l) => s.(token := true, publisher := Finish(l))
    case Unlock => s.(publisher := Resting)
  }

  function Finish(locked: bool): Publisher {
    if locked then Unlock else Resting
  }

  function Step(s: State, choice: Choice): State {
    match choice
    case CallReady(c) => if s.waiter == Idle then s.(waiter := FastCheck(c), floor := c) else s
    case CallPeek(c) => if s.waiter == Idle then s.(waiter := PeekFast(c)) else s
    case CallUpdate(c, r) =>
      if s.publisher == Resting then s.(publisher := if r then TryFast(c) else Section(c, r)) else s
    case CallJump(c) => if s.publisher == Resting then s.(publisher := JumpSection(c)) else s
    case WaiterStep => if WaiterEnabled(s) then StepWaiter(s) else s
    case PublisherStep =>
      if s.publisher != Resting && s.publisher != Panicked then StepPublisher(s) else s
  }

  function Run(s: State, schedule: seq<Choice>): State
    decreases |schedule|
  {
    if schedule == [] then s else Run(Step(s, schedule[0]), schedule[1..])
  }

  // ---------------------------------------------------------------- no lost wake-up

  predicate Notifying(p: Publisher, awaited: int) {
    (p.LoadFlag? || p.LoadTarget? || p.Send?) && p.cycle >= awaited
  }

  ghost predicate WakeInv(s: State) {
    && (s.waiter.StoreFlag? ==> s.target == s.waiter.cycle)
    && (s.waiter.LoopCheck? || s.waiter.Lookup? || s.waiter.Receive? ==>
          s.flag && s.target == s.waiter.cycle)
    && (s.waiter.Receive? && s.board.At(s.waiter.cycle) != Unset ==>
          s.token || Notifying(s.publisher, s.waiter.cycle))
  }

  lemma StepKeepsWakeInv(s: State, choice: Choice)
    requires WakeInv(s)
    ensures WakeInv(Step(s, choice))
  {
    if choice.PublisherStep? && s.waiter.Receive? {
      match s.publisher
      case FastSection(c) => PublishIsWriteOnce(s.board, c, true);
      case Section(c, r) => PublishIsWriteOnce(s.board, c, r);
      case JumpSection(c) => JumpToDecidesThePast(s.board, c);
      case _ =>
    }
  }

  lemma {:induction false} RunKeepsWakeInv(s: State, schedule: seq<Choice>)
    requires WakeInv(s)
    ensures WakeInv(Run(s, schedule))
    decreases |schedule|
  {
    if schedule != [] {
      StepKeepsWakeInv(s, schedule[0]);
      RunKeepsWakeInv(Step(s, schedule[0]), schedule[1..]);
    }
  }

  /** No lost wake-up, in every interleaving and for every order of publication: a waiter
      whose cycle has been decided never sits on an empty channel with the publisher at
      rest, although notifications are targeted and tokens may be dropped. */
  lemma NoLostWakeup(schedule: seq<Choice>)
    ensures var s := Run(INITIAL, schedule);
            s.waiter.Receive? && s.board.At(s.waiter.cycle) != Unset && !s.token
            ==> Notifying(s.publisher, s.waiter.cycle)
    ensures var s := Run(INITIAL, schedule);
            s.publisher == Resting && s.waiter != Idle && !WaiterEnabled(s)
            ==> s.waiter.Receive? && s.board.At(s.waiter.cycle) == Unset
  {
    RunKeepsWakeInv(INITIAL, schedule);
  }

  /** Waiter steps left before Ready returns, once its cycle is decided. */
  function Remaining(w: Waiter): nat {
    match w
    case Idle => 0
    case ClearFlag(_, _) => 1
    case PeekSection(_) => 1
    case PeekFast(_) => 2
    case Lookup(_) => 2
    case LoopCheck(_) => 3
    case Receive(_) => 4
    case StoreFlag(_) => 4
    case StoreTarget(_) => 5
    case FastCheck(_) => 6
  }

  function PublisherRemaining(p: Publisher): nat {
    match p
    case Resting => 0
    case Panicked => 0
    case Unlock => 1
    case Send(_, _) => 2
    case LoadTarget(_, _) => 3
    case LoadFlag(_, _) => 4
    case Section(_, _) => 5
    case JumpSection(_) => 5
    case FastSection(_) => 6
    case TryFast(_) => 7
  }

  /** Once the cycle asked for is decided, every enabled waiter step brings Ready closer to
      returning, and while the waiter is not enabled the publisher is. */
  lemma ReadyReturns(s: State)
    requires WakeInv(s) && s.waiter != Idle && !s.waiter.ClearFlag?
    requires s.board.At(s.waiter.cycle) != Unset
    ensures WaiterEnabled(s) ==> Remaining(StepWaiter(s).waiter) < Remaining(s.waiter)
    ensures !WaiterEnabled(s) ==> s.publisher != Resting && s.publisher != Panicked
  {
  }

  /** IsReadyNonBlocking takes two steps at most, and waits for nothing but a publisher that
      is about to release the lock. */
  lemma PeekReturns(s: State)
    requires s.waiter.PeekFast? || s.waiter.PeekSection?
    ensures WaiterEnabled(s) ==> Remaining(StepWaiter(s).waiter) < Remaining(s.waiter)
    ensures !WaiterEnabled(s) ==> s.publisher != Resting && s.publisher != Panicked
  {
  }

  /** Publisher steps never undo a decision. */
  lemma DecisionsStay(s: State, c: int)
    requires s.publisher != Resting && s.publisher != Panicked && s.board.At(c) != Unset
    ensures StepPublisher(s).board.At(c) != Unset
  {
    match s.publisher
    case FastSection(d) => PublishIsWriteOnce(s.board, d, true);
    case Section(d, r) => PublishIsWriteOnce(s.board, d, r);
    case JumpSection(d) => JumpToDecidesThePast(s.board, d);
    case _ =>
  }

  /** Meanwhile publisher steps neither move the waiter nor undo a decision, and each one
      brings the publisher closer to resting. */
  lemma PublisherDoesNotDisturb(s: State, c: int)
    requires s.publisher != Resting && s.publisher != Panicked
    ensures StepPublisher(s).waiter == s.waiter
    ensures s.board.At(c) != Unset ==> StepPublisher(s).board.At(c) != Unset
    ensures PublisherRemaining(StepPublisher(s).publisher) < PublisherRemaining(s.publisher)
  {
    hide Publish, JumpTo;
    if s.board.At(c) != Unset {
      DecisionsStay(s, c);
    }
  }

  // ------------------------------------------------- publication is a write-once map

  /** A publisher decides cycles in order, starting at 0, and repeats only ready ones; the
      asker moves forward, and asks for a cycle again only after it was found ready. */
  predicate Allowed(s: State, choice: Choice) {
    match choice
    case CallReady(c) => s.waiter == Idle ==> s.floor <= c
    case CallPeek(c) => s.waiter == Idle ==> s.floor <= c
    case CallUpdate(c, r) => s.publisher == Resting ==> MayPublish(s, c, r)
    case CallJump(_) => false
    case WaiterStep => true
    case PublisherStep => true
  }

  predicate MayPublish(s: State, c: int, r: bool) {
    c == s.board.End() || (r && c in s.decisions && s.decisions[c])
  }

  predicate Disciplined(s: State, schedule: seq<Choice>)
    decreases |schedule|
  {
    schedule == [] || (Allowed(s, schedule[0]) && Disciplined(Step(s, schedule[0]), schedule[1..]))
  }

  /** What the board, the decisions and the least cycle still to be asked for agree on. */
  ghost predicate Agree(b: Board, decisions: map<int, bool>, floor: int) {
    && 0 <= floor
    && 0 <= b.readyUntil
    && (forall c :: c in decisions <==> 0 <= c < b.End())
    // what is still in the array is what was decided
    && (forall c :: b.readyUntil <= c < b.End() ==> b.At(c) == MarkOf(decisions[c]))
    // what may still be asked for below readyUntil was decided ready
    && (forall c :: floor <= c < b.readyUntil ==> decisions[c])
  }

  ghost predicate AnswersRight(answers: seq<(int, bool)>, decisions: map<int, bool>) {
    forall i :: 0 <= i < |answers| ==> answers[i].0 in decisions && decisions[answers[i].0] == answers[i].1
  }

  ghost predicate PeeksRight(peeks: seq<(int, Answer)>, decisions: map<int, bool>) {
    forall i :: 0 <= i < |peeks| && peeks[i].1.Decided? ==>
      peeks[i].0 in decisions && decisions[peeks[i].0] == peeks[i].1.ready
  }

  ghost predicate Faithful(s: State) {
    && Agree(s.board, s.decisions, s.floor)
    && AnswersRight(s.answers, s.decisions) && PeeksRight(s.peeks, s.decisions)
    && (!s.waiter.Idle? && !s.waiter.ClearFlag? ==>
          if s.waiter.PeekFast? || s.waiter.PeekSection? then s.floor <= s.waiter.cycle else s.waiter.cycle == s.floor)
    && (s.publisher.TryFast? || s.publisher.FastSection? ==> MayPublish(s, s.publisher.cycle, true))
    && (s.publisher.Section? ==> MayPublish(s, s.publisher.cycle, s.publisher.ready))
    && !s.publisher.JumpSection?
    && s.publisher != Panicked
  }

  lemma RecordAgrees(s: State, c: int, r: bool)
    requires Agree(s.board, s.decisions, s.floor) && MayPublish(s, c, r)
    ensures !Contradicts(s.board, c, r)
    ensures Agree(Record(s, c, r).board, Record(s, c, r).decisions, s.floor)
    ensures s.board.At(c) == Unset ==> c == s.board.End()
    ensures forall d :: d in s.decisions ==>
              d in Record(s, c, r).decisions && Record(s, c, r).decisions[d] == s.decisions[d]
  {
    PublishIsWriteOnce(s.board, c, r);
  }

  lemma PruneAgrees(b: Board, decisions: map<int, bool>, c: int)
    requires Agree(b, decisions, c) && b.At(c) != Unset
    ensures b.At(c) == MarkOf(decisions[c])
    ensures Agree(Prune(b, c), decisions, if decisions[c] then c else c + 1)
    ensures Prune(b, c).End() == b.End()
  {
    PruneForgetsThePast(b, c);
  }

  /** An answer of Ready that is the decision keeps faith, if the board has been pruned to
      match. */
  lemma ReturnIsFaithful(s: State, board: Board, c: int, flagged: bool)
    requires Faithful(s) && c == s.floor && c in s.decisions && board.End() == s.board.End()
    requires Agree(board, s.decisions, if s.decisions[c] then c else c + 1)
    ensures Faithful(Return(s.(board := board), c, s.decisions[c], flagged))
  {
  }

  lemma PeekIsFaithful(s: State)
    requires Faithful(s) && WaiterEnabled(s) && (s.waiter.PeekFast? || s.waiter.PeekSection?)
    ensures Faithful(StepWaiter(s)) && StepWaiter(s).decisions == s.decisions
  {
  }

  lemma FastAnswerIsFaithful(s: State, c: int, flagged: bool)
    requires Faithful(s) && c == s.floor && c < s.board.readyUntil
    ensures Faithful(Return(s, c, true, flagged))
  {
    ReturnIsFaithful(s, s.board, c, flagged);
  }

  lemma LookupIsFaithful(s: State, c: int)
    requires Faithful(s) && c == s.floor && s.board.At(c) != Unset
    ensures Faithful(Return(s.(board := Prune(s.board, c)), c, s.board.At(c) == Ready, true))
  {
    hide Prune;
    PruneAgrees(s.board, s.decisions, c);
    ReturnIsFaithful(s, Prune(s.board, c), c, true);
  }

  lemma WaiterIsFaithful(s: State)
    requires Faithful(s) && WaiterEnabled(s)
    ensures Faithful(StepWaiter(s))
    ensures StepWaiter(s).decisions == s.decisions
  {
    hide Agree, AnswersRight, PeeksRight, Prune, Board.At;
    match s.waiter
    case FastCheck(c) => if c < s.board.readyUntil { FastAnswerIsFaithful(s, c, false); }
    case LoopCheck(c) => if c < s.board.readyUntil { FastAnswerIsFaithful(s, c, true); }
    case Lookup(c) => if s.board.At(c) != Unset { LookupIsFaithful(s, c); }
    case PeekFast(_) => PeekIsFaithful(s);
    case PeekSection(_) => PeekIsFaithful(s);
    case _ =>
  }

  lemma RecordIsFaithful(s: State, c: int, r: bool, locked: bool)
    requires Faithful(s) && MayPublish(s, c, r)
    ensures Faithful(Record(s, c, r).(publisher := LoadFlag(c, locked)))
    ensures forall d :: d in s.decisions ==>
              d in Record(s, c, r).decisions && Record(s, c, r).decisions[d] == s.decisions[d]
  {
    RecordAgrees(s, c, r);
  }

  lemma PublisherIsFaithful(s: State)
    requires Faithful(s) && s.publisher != Resting
    ensures Faithful(StepPublisher(s))
    ensures forall c :: c in s.decisions ==>
              c in StepPublisher(s).decisions && StepPublisher(s).decisions[c] == s.decisions[c]
  {
    match s.publisher
    case FastSection(c) =>
      if s.board.readyUntil == c && s.board.states == [] { RecordIsFaithful(s, c, true, false); }
    case Section(c, r) =>
      assert !Contradicts(s.board, c, r) by { RecordAgrees(s, c, r); }
      hide Publish, Board.At, Agree, AnswersRight, PeeksRight;
      if s.board.At(c) == Unset { RecordIsFaithful(s, c, r, true); }
    case _ =>
      hide Agree, AnswersRight, PeeksRight;
  }

  lemma StepIsFaithful(s: State, choice: Choice)
    requires Faithful(s) && Allowed(s, choice)
    ensures Faithful(Step(s, choice))
    ensures forall c :: c in s.decisions ==>
              c in Step(s, choice).decisions && Step(s, choice).decisions[c] == s.decisions[c]
  {
    match choice
    case WaiterStep => if WaiterEnabled(s) { WaiterIsFaithful(s); }
    case PublisherStep => if s.publisher != Resting { PublisherIsFaithful(s); }
    case _ =>
  }

  lemma {:induction false} RunIsFaithful(s: State, schedule: seq<Choice>)
    requires Faithful(s) && Disciplined(s, schedule)
    ensures Faithful(Run(s, schedule))
    ensures forall c :: c in s.decisions ==>
              c in Run(s, schedule).decisions && Run(s, schedule).decisions[c] == s.decisions[c]
    decreases |schedule|
  {
    if schedule != [] {
      StepIsFaithful(s, schedule[0]);
      RunIsFaithful(Step(s, schedule[0]), schedule[1..]);
    }
  }

  /** In every interleaving of a publisher that decides cycles in order with an asker that
      moves forward, neither panic of UpdateReady fires, every answer of Ready, and every
      answer of IsReadyNonBlocking other than undecided, is the decision published for that
      cycle, and no decision is ever changed. */
  lemma ReadyIsWriteOnce(schedule: seq<Choice>, more: seq<Choice>)
    requires Disciplined(INITIAL, schedule) && Disciplined(Run(INITIAL, schedule), more)
    ensures var s := Run(INITIAL, schedule);
            && s.publisher != Panicked
            && forall i :: 0 <= i < |s.answers| ==>
                 s.answers[i].0 in s.decisions && s.decisions[s.answers[i].0] == s.answers[i].1
    ensures var s := Run(INITIAL, schedule);
            forall i :: 0 <= i < |s.peeks| && s.peeks[i].1.Decided? ==>
              s.peeks[i].0 in s.decisions && s.decisions[s.peeks[i].0] == s.peeks[i].1.ready
    ensures var s, t := Run(INITIAL, schedule), Run(Run(INITIAL, schedule), more);
            forall c :: c in s.decisions ==> c in t.decisions && t.decisions[c] == s.decisions[c]
  {
    RunIsFaithful(INITIAL, schedule);
    RunIsFaithful(Run(INITIAL, schedule), more);
  }

  /** When IsReadyNonBlocking answers, be it after its lock-free look or under the lock, it
      says what is published for the cycle at that moment, and undecided if nothing is. */
  lemma PeekIsExact(schedule: seq<Choice>)
    requires Disciplined(INITIAL, schedule)
    ensures var s := Run(INITIAL, schedule);
            (s.waiter.PeekFast? || s.waiter.PeekSection?) && WaiterEnabled(s) && StepWaiter(s).waiter == Idle ==>
            var c := s.waiter.cycle;
            StepWaiter(s) == Peeked(s, c, if c in s.decisions then Decided(s.decisions[c]) else Undecided)
  {
    RunIsFaithful(INITIAL, schedule);
  }

  /** Where the discipline is left, in any state such a run can reach: asking for a decided
      cycle gives its decision if and only if it was decided ready or has not been pruned,
      and publishing a not-ready decision a second time panics if and only if the cycle
      has been pruned. */
  lemma OutsideTheDiscipline(schedule: seq<Choice>, c: int)
    requires Disciplined(INITIAL, schedule)
    requires c in Run(INITIAL, schedule).decisions
    ensures var s := Run(INITIAL, schedule);
            AnswerOf(s.board.At(c)) == Decided(s.decisions[c])
            <==> s.decisions[c] || s.board.readyUntil <= c
    ensures var s := Run(INITIAL, schedule);
            !s.decisions[c] ==> (Contradicts(s.board, c, false) <==> c < s.board.readyUntil)
  {
    RunIsFaithful(INITIAL, schedule);
  }

  const REFUSE: seq<Choice> := [CallUpdate(0, false), PublisherStep, PublisherStep, PublisherStep]
  const ASK: seq<Choice> := [CallReady(0), WaiterStep, WaiterStep, WaiterStep, WaiterStep, WaiterStep]

  /** Such a state exists: cycle 0 is decided not ready and asked for, and then asking again
      answers ready, while publishing the same decision again panics. */
  lemma AskingTwiceForgets()
    ensures Disciplined(INITIAL, REFUSE + ASK)
    ensures var s := Run(INITIAL, REFUSE + ASK);
            && s.answers == [(0, false)] && s.decisions == map[0 := false]
            && s.board.At(0) == Ready && Contradicts(s.board, 0, false)
  {
    var refused := INITIAL.(board := Board(0, [NotReady]), decisions := map[0 := false]);
    RefusedState(refused);
    AskedState(refused);
    RunInTwoParts(INITIAL, REFUSE, ASK);
  }

  lemma RefusedState(refused: State)
    requires refused == INITIAL.(board := Board(0, [NotReady]), decisions := map[0 := false])
    ensures Disciplined(INITIAL, REFUSE) && Run(INITIAL, REFUSE) == refused
  {
    var s1 := INITIAL.(publisher := Section(0, false));
    var s2 := refused.(publisher := LoadFlag(0, true));
    assert Step(s1, PublisherStep) == s2 by {
      assert Grown([], 0)[0 := NotReady] == [NotReady];
    }
    Unroll(INITIAL, REFUSE);
    Unroll(s1, REFUSE[1..]);
    Unroll(s2, REFUSE[2..]);
    Unroll(s2.(publisher := Unlock), REFUSE[3..]);
    assert REFUSE[4..] == [];
  }

  lemma AskedState(refused: State)
    requires refused == INITIAL.(board := Board(0, [NotReady]), decisions := map[0 := false])
    ensures Disciplined(refused, ASK)
    ensures Run(refused, ASK).board == Board(1, [])
    ensures Run(refused, ASK).decisions == refused.decisions
    ensures Run(refused, ASK).answers == [(0, false)]
  {
    var waiting := refused.(target := 0, waiter := StoreFlag(0));
    assert Disciplined(refused, ASK[..3]) && Run(refused, ASK[..3]) == waiting by {
      Unroll(refused, ASK[..3]);
      Unroll(refused.(waiter := FastCheck(0)), ASK[..3][1..]);
      Unroll(refused.(waiter := StoreTarget(0)), ASK[..3][2..]);
      assert ASK[..3][3..] == [];
    }
    WaitingState(waiting);
    RunInTwoParts(refused, ASK[..3], [WaiterStep, WaiterStep, WaiterStep]);
    assert ASK == ASK[..3] + [WaiterStep, WaiterStep, WaiterStep];
  }

  lemma WaitingState(waiting: State)
    requires waiting.board == Board(0, [NotReady]) && waiting.waiter == StoreFlag(0)
    requires waiting.publisher == Resting && waiting.answers == []
    ensures var steps := [WaiterStep, WaiterStep, WaiterStep];
            && Disciplined(waiting, steps)
            && Run(waiting, steps).board == Board(1, [])
            && Run(waiting, steps).decisions == waiting.decisions
            && Run(waiting, steps).answers == [(0, false)]
  {
    hide *;
    var s1 := waiting.(flag := true, waiter := LoopCheck(0));
    var s2 := s1.(waiter := Lookup(0));
    FlagIsStored(waiting);
    LoopIsEntered(s1);
    RefusalIsFound(s2);
    ThreeSteps(waiting, s1, s2, s2.(board := Board(1, []), waiter := ClearFlag(0, false), floor := 1, answers := [(0, false)]));
  }

  lemma FlagIsStored(s: State)
    requires s.waiter == StoreFlag(0)
    ensures Step(s, WaiterStep) == s.(flag := true, waiter := LoopCheck(0))
  {
  }

  lemma LoopIsEntered(s: State)
    requires s.waiter == LoopCheck(0) && s.board.readyUntil == 0
    ensures Step(s, WaiterStep) == s.(waiter := Lookup(0))
  {
  }

  lemma RefusalIsPruned()
    ensures Board(0, [NotReady]).At(0) == NotReady && Prune(Board(0, [NotReady]), 0) == Board(1, [])
  {
    assert [NotReady][1..] == [];
  }

  lemma RefusalIsFound(s: State)
    requires s.waiter == Lookup(0) && s.board == Board(0, [NotReady]) && s.publisher == Resting && s.answers == []
    ensures Step(s, WaiterStep) == s.(board := Board(1, []), waiter := ClearFlag(0, false), floor := 1, answers := [(0, false)])
  {
    hide Board.At, Prune, StepPublisher;
    RefusalIsPruned();
    assert s.answers + [(0, false)] == [(0, false)];
  }

  lemma ThreeSteps(s0: State, s1: State, s2: State, s3: State)
    requires s1 == Step(s0, WaiterStep) && s2 == Step(s1, WaiterStep) && s3 == Step(s2, WaiterStep)
    ensures var steps := [WaiterStep, WaiterStep, WaiterStep];
            Disciplined(s0, steps) && Run(s0, steps) == s3
  {
    hide Step;
    var steps := [WaiterStep, WaiterStep, WaiterStep];
    Unroll(s0, steps);
    Unroll(s1, steps[1..]);
    Unroll(s2, steps[2..]);
    assert steps[3..] == [];
  }

  lemma {:induction false} RunInTwoParts(s: State, first: seq<Choice>, second: seq<Choice>)
    requires Disciplined(s, first) && Disciplined(Run(s, first), second)
    ensures Disciplined(s, first + second)
    ensures Run(s, first + second) == Run(Run(s, first), second)
    decreases |first|
  {
    hide Step, Allowed;
    if first == [] {
      assert first + second == second;
    } else {
      RunInTwoParts(Step(s, first[0]), first[1..], second);
      assert (first + second)[1..] == first[1..] + second;
    }
  }

  lemma Unroll(s: State, schedule: seq<Choice>)
    requires schedule != []
    ensures Run(s, schedule) == Run(Step(s, schedule[0]), schedule[1..])
    ensures Disciplined(s, schedule) ==
            (Allowed(s, schedule[0]) && Disciplined(Step(s, schedule[0]), schedule[1..]))
  {
  }

  // ---------------------------------------------------------------- flag and token

  /** The flag is set from its store until Ready clears it on its way out. */
  predicate FlagFits(s: State) {
    s.flag == (s.waiter.LoopCheck? || s.waiter.Lookup? || s.waiter.Receive? || s.waiter.ClearFlag?)
  }

  /** After any schedule: between two calls of Ready the flag is clear. */
  lemma {:induction false} FlagIsCleared(s: State, schedule: seq<Choice>)
    requires FlagFits(s)
    ensures FlagFits(Run(s, schedule))
    decreases |schedule|
  {
    if schedule != [] {
      FlagIsCleared(Step(s, schedule[0]), schedule[1..]);
    }
  }

  /** All cycles asked for are later than `bound`, and all cycles decided are not. */
  predicate Apart(schedule: seq<Choice>, bound: int) {
    forall i :: 0 <= i < |schedule| ==>
      && (schedule[i].CallReady? ==> schedule[i].cycle > bound)
      && (schedule[i].CallUpdate? || schedule[i].CallJump? ==> schedule[i].cycle <= bound)
  }

  /** The asker has not been woken, and is not about to be. */
  predicate Undisturbed(s: State, bound: int) {
    && !s.token && !s.publisher.Send?
    && (s.publisher != Resting && s.publisher != Panicked && s.publisher != Unlock ==> s.publisher.cycle <= bound)
    && (s.waiter != Idle && !s.waiter.PeekFast? && !s.waiter.PeekSection? ==> s.waiter.cycle > bound)
    && (s.flag || s.publisher.LoadTarget? || s.waiter.StoreFlag? ==> s.target > bound)
  }

  /** Wake-ups are targeted: as long as only cycles before those asked for are decided, no token
      is sent, in any interleaving. */
  lemma {:induction false} NoNeedlessWakeup(s: State, schedule: seq<Choice>, bound: int)
    requires Apart(schedule, bound) && Undisturbed(s, bound)
    ensures Undisturbed(Run(s, schedule), bound)
    decreases |schedule|
  {
    if schedule != [] {
      assert Apart([schedule[0]], bound);
      UndisturbedStep(s, schedule[0], bound);
      hide Undisturbed, Step;
      NoNeedlessWakeup(Step(s, schedule[0]), schedule[1..], bound);
    }
  }

  lemma UndisturbedStep(s: State, choice: Choice, bound: int)
    requires Apart([choice], bound) && Undisturbed(s, bound)
    ensures Undisturbed(Step(s, choice), bound)
  {
    assert [choice][0] == choice;
    hide Publish, Prune, JumpTo, Contradicts;
  }
}
