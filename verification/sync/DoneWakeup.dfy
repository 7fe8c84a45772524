/** SetDone and WaitDone of ComponentSync as a state machine over their atomic steps
    (internal/core/ahead_port/sync.go): one waiting goroutine, one setting goroutine, the
    atomics `done`, `waitingFor` and `doneWaiting`, and the one-token channel
    `doneNotify`. Every load, store, send and receive is one step, taken in any
    interleaving. */
module DoneWakeup {

  datatype Waiter =
    | Idle
    | FastCheck(cycle: int)    // compare `done` before announcing
    | StoreTarget(cycle: int)  // waitingFor := cycle
    | StoreFlag(cycle: int)    // doneWaiting := 1
    | DoubleCheck(cycle: int)  // compare `done` again
    | LoopCheck(cycle: int)    // loop guard
    | Receive(cycle: int)      // <-doneNotify, blocks while there is no token
    | ClearFlag(cycle: int)    // deferred doneWaiting := 0, then return

  datatype Setter =
    | Resting
    | StoreDone(cycle: int)    // done := cycle
    | LoadFlag(cycle: int)     // doneWaiting == 1 ?
    | LoadTarget(cycle: int)   // cycle >= waitingFor ?
    | Send(cycle: int)         // non-blocking send

  datatype State = State(done: int, flag: bool, target: int, token: bool, waiter: Waiter, setter: Setter)

  datatype Choice = CallWait(cycle: int) | CallSet(cycle: int) | WaiterStep | SetterStep

  const INITIAL := State(-1, false, 0, false, Idle, Resting)

  predicate WaiterEnabled(s: State) {
    s.waiter != Idle && (s.waiter.Receive? ==> s.token)
  }

  function StepWaiter(s: State): State
    requires WaiterEnabled(s)
  {
    match s.waiter
    case FastCheck(c) =>
      if s.done >= c then s.(waiter := Idle) else s.(waiter := StoreTarget(c))
    case StoreTarget(c) => s.(target := c, waiter := StoreFlag(c))
    case StoreFlag(c) => s.(flag := true, waiter := DoubleCheck(c))
    case DoubleCheck(c) =>
      if s.done >= c then s.(waiter := ClearFlag(c)) else s.(waiter := LoopCheck(c))
    case LoopCheck(c) =>
      if s.done < c then s.(waiter := Receive(c)) else s.(waiter := ClearFlag(c))
    case Receive(c) => s.(token := false, waiter := LoopCheck(c))
    case ClearFlag(_) => s.(flag := false, waiter := Idle)
  }

  function StepSetter(s: State): State
    requires s.setter != Resting
  {
    match s.setter
    case StoreDone(c) => s.(done := c, setter := LoadFlag(c))
    case LoadFlag(c) => if s.flag then s.(setter := LoadTarget(c)) else s.(setter := Resting)
    case LoadTarget(c) => if c >= s.target then s.(setter := Send(c)) else s.(setter := Resting)
    case Send(_) => s.(token := true, setter := Resting)
  }

  /** One scheduler choice; a choice that is not enabled changes nothing. */
  function Step(s: State, choice: Choice): State {
    match choice
    case CallWait(c) => if s.waiter == Idle then s.(waiter := FastCheck(c)) else s
    case CallSet(c) => if s.setter == Resting then s.(setter := StoreDone(c)) else s
    case WaiterStep => if WaiterEnabled(s) then StepWaiter(s) else s
    case SetterStep => if s.setter != Resting then StepSetter(s) else s
  }

  function Run(s: State, schedule: seq<Choice>): State
    decreases |schedule|
  {
    if schedule == [] then s else Run(Step(s, schedule[0]), schedule[1..])
  }

  /** The setter has stored a cycle that reaches `awaited` and has not finished notifying. */
  predicate Notifying(setter: Setter, awaited: int) {
    (setter.LoadFlag? || setter.LoadTarget? || setter.Send?) && setter.cycle >= awaited
  }

  ghost predicate Inv(s: State) {
    && (s.waiter.StoreFlag? ==> s.target == s.waiter.cycle)
    && (s.waiter.DoubleCheck? || s.waiter.LoopCheck? || s.waiter.Receive? ==>
          s.flag && s.target == s.waiter.cycle)
    && (s.setter.LoadFlag? || s.setter.LoadTarget? || s.setter.Send? ==> s.done == s.setter.cycle)
    && (s.waiter.Receive? && s.done >= s.waiter.cycle ==>
          s.token || Notifying(s.setter, s.waiter.cycle))
  }

  lemma StepKeepsInv(s: State, choice: Choice)
    requires Inv(s)
    ensures Inv(Step(s, choice))
  {
  }

  lemma {:induction false} RunKeepsInv(s: State, schedule: seq<Choice>)
    requires Inv(s)
    ensures Inv(Run(s, schedule))
    decreases |schedule|
  {
    if schedule != [] {
      StepKeepsInv(s, schedule[0]);
      RunKeepsInv(Step(s, schedule[0]), schedule[1..]);
    }
  }

  /** No lost wake-up: in every interleaving, a waiter that sits on an empty channel
      although its cycle is done is about to be woken by the setter; with the setter at
      rest there is no such state. */
  lemma NoLostWakeup(schedule: seq<Choice>)
    ensures var s := Run(INITIAL, schedule);
            s.waiter.Receive? && s.done >= s.waiter.cycle && !s.token
            ==> Notifying(s.setter, s.waiter.cycle)
    ensures var s := Run(INITIAL, schedule);
            s.setter == Resting && s.waiter != Idle && !WaiterEnabled(s) ==> s.done < s.waiter.cycle
  {
    RunKeepsInv(INITIAL, schedule);
  }

  /** Waiter steps left before WaitDone returns, once its cycle is done. */
  function Remaining(w: Waiter): nat {
    match w
    case Idle => 0
    case ClearFlag(_) => 1
    case LoopCheck(_) => 2
    case DoubleCheck(_) => 3
    case Receive(_) => 3
    case StoreFlag(_) => 4
    case StoreTarget(_) => 5
    case FastCheck(_) => 6
  }

  function SetterRemaining(t: Setter): nat {
    match t
    case Resting => 0
    case Send(_) => 1
    case LoadTarget(_) => 2
    case LoadFlag(_) => 3
    case StoreDone(_) => 4
  }

  /** Once the awaited cycle is done, every enabled waiter step brings WaitDone closer to
      returning, whatever the setter does in between; when the waiter is not enabled the
      setter is in the middle of SetDone, and each of its steps brings that to its end. */
  lemma WaitDoneReturns(s: State)
    requires Inv(s) && s.waiter != Idle && s.done >= s.waiter.cycle
    ensures WaiterEnabled(s) ==> Remaining(StepWaiter(s).waiter) < Remaining(s.waiter)
    ensures !WaiterEnabled(s) ==>
              && s.setter != Resting
              && StepSetter(s).waiter == s.waiter
              && StepSetter(s).done == s.done
              && SetterRemaining(StepSetter(s).setter) < SetterRemaining(s.setter)
    ensures s.setter == Resting ==> WaiterEnabled(s)
  {
  }

  /** A setter that reports cycles in order never takes a done cycle back. */
  predicate InOrder(s: State, schedule: seq<Choice>)
    decreases |schedule|
  {
    schedule == [] ||
    ((schedule[0].CallSet? && s.setter == Resting ==> schedule[0].cycle >= s.done) &&
     InOrder(Step(s, schedule[0]), schedule[1..]))
  }

  /** WaitDone is about to return, and only because its cycle is done. */
  ghost predicate ReturnsDone(s: State) {
    && (s.waiter.ClearFlag? ==> s.done >= s.waiter.cycle)
    && (s.setter.StoreDone? ==> s.setter.cycle >= s.done)
  }

  lemma {:induction false} WaitDoneIsSound(s: State, schedule: seq<Choice>)
    requires ReturnsDone(s) && InOrder(s, schedule)
    ensures ReturnsDone(Run(s, schedule))
    ensures s.done <= Run(s, schedule).done
    decreases |schedule|
  {
    if schedule != [] {
      WaitDoneIsSound(Step(s, schedule[0]), schedule[1..]);
    }
  }

  // ---------------------------------------------------------------- flag and token

  /** The flag is set from its store until WaitDone clears it on its way out. */
  predicate FlagFits(s: State) {
    s.flag == (s.waiter.DoubleCheck? || s.waiter.LoopCheck? || s.waiter.Receive? || s.waiter.ClearFlag?)
  }

  /** After any schedule: between two calls of WaitDone the flag is clear. */
  lemma {:induction false} FlagIsCleared(s: State, schedule: seq<Choice>)
    requires FlagFits(s)
    ensures FlagFits(Run(s, schedule))
    decreases |schedule|
  {
    if schedule != [] {
      FlagIsCleared(Step(s, schedule[0]), schedule[1..]);
    }
  }

  /** All cycles waited for are later than `bound`, and all cycles set are not. */
  predicate Apart(schedule: seq<Choice>, bound: int) {
    forall i :: 0 <= i < |schedule| ==>
      && (schedule[i].CallWait? ==> schedule[i].cycle > bound)
      && (schedule[i].CallSet? ==> schedule[i].cycle <= bound)
  }

  /** Nobody has been woken, or is about to be. */
  predicate Undisturbed(s: State, bound: int) {
    && !s.token && !s.setter.Send?
    && (s.setter != Resting ==> s.setter.cycle <= bound)
    && (s.waiter != Idle ==> s.waiter.cycle > bound)
    && (s.flag || s.setter.LoadTarget? || s.waiter.StoreFlag? ==> s.target > bound)
  }

  /** Wake-ups are targeted: as long as only cycles before those waited for are set, no token is
      sent, in any interleaving. */
  lemma {:induction false} NoNeedlessWakeup(s: State, schedule: seq<Choice>, bound: int)
    requires Apart(schedule, bound) && Undisturbed(s, bound)
    ensures Undisturbed(Run(s, schedule), bound)
    decreases |schedule|
  {
    if schedule != [] {
      assert Undisturbed(Step(s, schedule[0]), bound);
      hide Undisturbed, Step;
      NoNeedlessWakeup(Step(s, schedule[0]), schedule[1..], bound);
    }
  }
}
