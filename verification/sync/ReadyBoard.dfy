/** The ready half of ComponentSync (internal/core/ahead_port/sync.go).

    A downstream component decides, cycle by cycle, whether it will accept packets. The
    decisions live in two fields: every cycle below `readyUntil` counts as ready, and
    `readyStates[k]` holds the decision for cycle `readyUntil + k`. Publishing compacts a
    leading run of ready cycles into `readyUntil`; asking prunes everything up to the
    cycle asked for. `Board.At` is what the two fields mean, and the lemmas say what each
    operation does to that meaning. */
module ReadyBoard {

  datatype Mark = Unset | Ready | NotReady

  function MarkOf(ready: bool): Mark {
    if ready then Ready else NotReady
  }

  datatype Board = Board(readyUntil: int, states: seq<Mark>) {

    /** The decision the two fields record for cycle `c`. */
    function At(c: int): Mark {
      if c < readyUntil then Ready
      else if c - readyUntil < |states| then states[c - readyUntil]
      else Unset
    }

    /** One past the last cycle the fields can speak of. */
    function End(): int {
      readyUntil + |states|
    }
  }

  /** Moves leading ready cycles out of the array and into `readyUntil`. */
  function Compact(b: Board): Board
    decreases |b.states|
  {
    if |b.states| > 0 && b.states[0] == Ready
    then Compact(Board(b.readyUntil + 1, b.states[1..]))
    else b
  }

  lemma {:induction false} CompactKeepsMeaning(b: Board)
    ensures forall c :: Compact(b).At(c) == b.At(c)
    ensures Compact(b).End() == b.End()
    ensures b.readyUntil <= Compact(b).readyUntil
    decreases |b.states|
  {
    if |b.states| > 0 && b.states[0] == Ready {
      var next := Board(b.readyUntil + 1, b.states[1..]);
      assert forall c :: next.At(c) == b.At(c);
      CompactKeepsMeaning(next);
    }
  }

  /** `readyStates` grown with unset cells so that it reaches `offset`. */
  function Grown(states: seq<Mark>, offset: nat): (r: seq<Mark>)
    ensures |r| == if offset < |states| then |states| else offset + 1
    ensures forall k :: 0 <= k < |r| ==> r[k] == if k < |states| then states[k] else Unset
  {
    if offset < |states| then states
    else states + seq(offset + 1 - |states|, _ => Unset)
  }

  /** A decision that the board contradicts; the code panics on it. */
  predicate Contradicts(b: Board, cycle: int, ready: bool) {
    b.At(cycle) != Unset && b.At(cycle) != MarkOf(ready)
  }

  /** The board after publishing a decision that does not contradict it. */
  function Publish(b: Board, cycle: int, ready: bool): Board {
    if b.At(cycle) != Unset then b
    else
      var offset := cycle - b.readyUntil;
      Compact(Board(b.readyUntil, Grown(b.states, offset)[offset := MarkOf(ready)]))
  }

  /** Publication is write-once: it decides exactly one undecided cycle, and compaction
      changes the decision of none. */
  lemma PublishIsWriteOnce(b: Board, cycle: int, ready: bool)
    ensures forall c :: Publish(b, cycle, ready).At(c) ==
                        if c == cycle && b.At(c) == Unset then MarkOf(ready) else b.At(c)
    ensures Publish(b, cycle, ready).End() == if b.End() <= cycle then cycle + 1 else b.End()
    ensures b.readyUntil <= Publish(b, cycle, ready).readyUntil
  {
    if b.At(cycle) == Unset {
      var offset := cycle - b.readyUntil;
      CompactKeepsMeaning(Board(b.readyUntil, Grown(b.states, offset)[offset := MarkOf(ready)]));
    }
  }

  /** The board after a query for `cycle` has pruned it. */
  function Prune(b: Board, cycle: int): Board {
    if cycle < b.readyUntil || b.At(cycle) == Unset then b
    else Board(cycle + 1, b.states[cycle - b.readyUntil + 1..])
  }

  /** Pruning keeps every later decision, and makes every cycle up to the one asked for
      count as ready, whatever had been decided for it. */
  lemma PruneForgetsThePast(b: Board, cycle: int)
    requires b.At(cycle) != Unset
    ensures forall c :: Prune(b, cycle).At(c) == if c <= cycle then Ready else b.At(c)
    ensures Prune(b, cycle).End() == b.End()
    ensures Prune(b, cycle).readyUntil == if cycle < b.readyUntil then b.readyUntil else cycle + 1
  {
  }

  /** The board after SetReadyUntil(cycle). */
  function JumpTo(b: Board, cycle: int): Board {
    if cycle <= b.readyUntil then b
    else Board(cycle, if cycle - b.readyUntil < |b.states| then b.states[cycle - b.readyUntil..] else [])
  }

  lemma JumpToDecidesThePast(b: Board, cycle: int)
    ensures forall c :: JumpTo(b, cycle).At(c) == if c < cycle then Ready else b.At(c)
  {
  }

  datatype Answer = Undecided | Decided(ready: bool)

  function AnswerOf(m: Mark): Answer {
    if m == Unset then Undecided else Decided(m == Ready)
  }

  class ComponentSync {
    var readyUntil: int
    var readyStates: seq<Mark>

    function State(): Board
      reads this
    {
      Board(readyUntil, readyStates)
    }

    constructor ()
      ensures State() == Board(0, [])
    {
      readyUntil, readyStates := 0, [];
    }

    /** checkStatesAndPrune: answers a query and prunes what it has answered. */
    method CheckStatesAndPrune(cycle: int) returns (answer: Answer)
      modifies this
      ensures answer == AnswerOf(old(State()).At(cycle))
      ensures State() == Prune(old(State()), cycle)
    {
      var offset := cycle - readyUntil;
      if offset < 0 {
        return Decided(true);
      }
      if offset >= |readyStates| {
        return Undecided;
      }
      var state := readyStates[offset];
      if state == Unset {
        return Undecided;
      }
      readyStates := readyStates[offset + 1..];
      readyUntil := cycle + 1;
      return Decided(state == Ready);
    }

    /** IsReadyNonBlocking: the same answer, without pruning. */
    method IsReadyNonBlocking(cycle: int) returns (answer: Answer)
      ensures answer == AnswerOf(State().At(cycle))
    {
      if cycle < readyUntil {
        return Decided(true);
      }
      var offset := cycle - readyUntil;
      if offset >= |readyStates| {
        return Undecided;
      }
      var state := readyStates[offset];
      if state == Unset {
        return Undecided;
      }
      return Decided(state == Ready);
    }

    /** UpdateReady. `panicked` stands for the two panics of the code, which leave the
        fields as they were, except that the immutability panic comes after the array may
        have been grown with unset cells: that branch needs a set cell, so it cannot grow. */
    method UpdateReady(cycle: int, ready: bool) returns (panicked: bool)
      modifies this
      ensures panicked == Contradicts(old(State()), cycle, ready)
      ensures State() == if panicked then old(State()) else Publish(old(State()), cycle, ready)
    {
      ghost var before := State();
      if ready && readyUntil == cycle {
        if |readyStates| == 0 {
          readyUntil := cycle + 1;
          assert Grown([], 0)[0 := Ready] == [Ready];
          assert Compact(Board(cycle, [Ready])) == Compact(Board(cycle + 1, [])) by {
            assert [Ready][1..] == [];
          }
          return false;
        }
      }
      if cycle < readyUntil {
        return !ready;
      }
      var offset := cycle - readyUntil;
      var states := readyStates;
      if offset >= |states| {
        states := states + seq(offset + 1 - |states|, _ => Unset);
      }
      assert states == Grown(before.states, offset);
      if states[offset] != Unset {
        var existing := states[offset] == Ready;
        return existing != ready;
      }
      readyStates := states[offset := MarkOf(ready)];
      CompactLoop();
      return false;
    }

    /** The compaction loop of UpdateReady. */
    method CompactLoop()
      modifies this
      ensures State() == Compact(old(State()))
    {
      var until := readyUntil;
      while |readyStates| > 0 && readyStates[0] == Ready
        invariant Compact(Board(until, readyStates)) == Compact(old(State()))
        invariant readyUntil == old(readyUntil)
        decreases |readyStates|
      {
        until := until + 1;
        readyStates := readyStates[1..];
      }
      readyUntil := until;
    }

    method SetReadyUntil(cycle: int)
      modifies this
      ensures State() == JumpTo(old(State()), cycle)
    {
      if cycle <= readyUntil {
        return;
      }
      var diff := cycle - readyUntil;
      if diff < |readyStates| {
        readyStates := readyStates[diff..];
      } else {
        readyStates := [];
      }
      readyUntil := cycle;
    }
  }
}
