/** ReorderBuffer (internal/nodes/cpu/champsim/rob.go): a circular buffer of instructions
    with head, tail and size, which is the sequence of instructions from the oldest on. */
module ReorderBuffer {
  import opened Rings
  import opened Pipeline

  datatype Slot = Nil | Entry(instr: Instr)

  function Entries(s: seq<Instr>): seq<Slot> {
    seq(|s|, i requires 0 <= i < |s| => Entry(s[i]))
  }

  class ReorderBuffer {
    const buffer: array<Slot>
    const maxSize: int
    var head: int
    var tail: int
    var size: int
    ghost var contents: seq<Instr>

    ghost predicate Valid()
      reads this, buffer
    {
      && maxSize > 0 && buffer.Length == maxSize
      && 0 <= head < maxSize && 0 <= size <= maxSize
      && tail == Index(head, size, maxSize)
      && View(buffer[..], head, size) == Entries(contents)
    }

    constructor (maxSize: int)
      requires maxSize > 0
      ensures Valid() && fresh(buffer) && this.maxSize == maxSize && contents == []
    {
      buffer := new Slot[maxSize](_ => Nil);
      this.maxSize := maxSize;
      head, tail, size, contents := 0, 0, 0, [];
    }

    lemma SizeIsLength()
      requires Valid()
      ensures size == |contents|
    {
      assert size == |Entries(contents)|;
    }

    predicate IsFull()
      reads `size
    {
      size >= maxSize
    }

    /** Add; the error of a full buffer is `false`. */
    method Add(x: Instr) returns (ok: bool)
      requires Valid()
      modifies this, buffer
      ensures Valid()
      ensures ok == (|old(contents)| < maxSize)
      ensures contents == if ok then old(contents) + [x] else old(contents)
    {
      SizeIsLength();
      if IsFull() {
        return false;
      }
      AddBack(buffer[..], head, size, Entry(x));
      NextIndex(head, size, maxSize);
      buffer[tail] := Entry(x);
      assert buffer[..] == old(buffer[..])[tail := Entry(x)];
      tail := (tail + 1) % maxSize;
      size := size + 1;
      contents := contents + [x];
      assert Entries(contents) == Entries(old(contents)) + [Entry(x)];
      return true;
    }

    /** Retire: the head leaves if it has completed. */
    method Retire() returns (retired: Slot)
      requires Valid()
      modifies this, buffer
      ensures Valid()
      ensures retired == if old(contents) != [] && old(contents)[0].completed then Entry(old(contents)[0]) else Nil
      ensures contents == if retired.Entry? then old(contents)[1..] else old(contents)
    {
      assert size == |Entries(contents)|;
      if size == 0 {
        return Nil;
      }
      DropFrontAndClear(buffer[..], head, size, Nil);
      retired := buffer[head];
      assert retired == Entries(contents)[0];
      if !retired.instr.completed {
        return Nil;
      }
      buffer[head] := Nil;
      assert buffer[..] == old(buffer[..])[head := Nil];
      head := (head + 1) % maxSize;
      size := size - 1;
      contents := contents[1..];
      assert Entries(contents) == Entries(old(contents))[1..];
    }

    function PeekAt(i: int): (slot: Slot)
      requires Valid()
      reads this, buffer
      ensures slot == if 0 <= i < |contents| then Entry(contents[i]) else Nil
    {
      assert size == |Entries(contents)|;
      if i < 0 || i >= size then Nil
      else
        assert View(buffer[..], head, size)[i] == buffer[Index(head, i, maxSize)];
        buffer[(head + i) % maxSize]
    }

    /** The caller's writes through the pointer that PeekAt(i) returned. */
    method Put(i: int, x: Instr)
      requires Valid() && 0 <= i < |contents|
      modifies `contents, buffer
      ensures Valid() && contents == old(contents)[i := x]
    {
      assert size == |Entries(contents)|;
      ghost var at := Index(head, i, maxSize);
      buffer[(head + i) % maxSize] := Entry(x);
      contents := contents[i := x];
      assert buffer[..] == old(buffer[..])[at := Entry(x)];
      UpdateOne(old(buffer[..]), head, size, i, Entry(x));
      assert Entries(contents) == Entries(old(contents))[i := Entry(x)];
    }

    /** FindByInstrID: where the first instruction with this id is, or -1. */
    method FindByInstrID(id: nat) returns (at: int)
      requires Valid()
      ensures at == if Find(contents, id) < |contents| then Find(contents, id) else -1
    {
      assert size == |Entries(contents)|;
      var idx := head;
      for i := 0 to size
        invariant idx == Index(head, i, maxSize)
        invariant forall j :: 0 <= j < i ==> contents[j].id != id
      {
        assert View(buffer[..], head, size)[i] == buffer[idx] == Entry(contents[i]);
        if buffer[idx].instr.id == id {
          return i;
        }
        NextIndex(head, i, maxSize);
        idx := (idx + 1) % maxSize;
      }
      return -1;
    }

    /** Flush: drops everything after the instruction, and says how much. */
    method Flush(id: nat) returns (flushed: int)
      requires Valid()
      modifies this, buffer
      ensures Valid()
      ensures contents == KeptBy(old(contents), id)
      ensures flushed == |old(contents)| - |contents|
    {
      assert size == |Entries(contents)|;
      var branch := FindByInstrID(id);
      if branch == -1 {
        return 0;
      }
      flushed := ClearAfter(branch);
      NextIndex(head, branch, maxSize);
      tail := ((head + branch) % maxSize + 1) % maxSize;
      size := size - flushed;
      contents := contents[..branch + 1];
      assert View(buffer[..], head, size) == View(buffer[..], head, old(size))[..branch + 1];
      assert Entries(contents) == Entries(old(contents))[..branch + 1];
    }

    /** The loop that clears the places after `branch`, up to the tail. */
    method ClearAfter(branch: int) returns (flushed: int)
      requires Valid() && 0 <= branch < size
      modifies buffer
      ensures flushed == size - branch - 1
      ensures View(buffer[..], head, size)[..branch + 1] == old(View(buffer[..], head, size))[..branch + 1]
    {
      NextIndex(head, branch, maxSize);
      flushed := 0;
      var nextIdx := ((head + branch) % maxSize + 1) % maxSize;
      while nextIdx != tail
        invariant 0 <= flushed <= size - branch - 1
        invariant nextIdx == Index(head, branch + 1 + flushed, maxSize)
        invariant View(buffer[..], head, size)[..branch + 1] == old(View(buffer[..], head, size))[..branch + 1]
        decreases size - flushed
      {
        IndicesDiffer(head, branch + 1 + flushed, size, maxSize);
        Clear(branch + 1 + flushed, nextIdx);
        NextIndex(head, branch + 1 + flushed, maxSize);
        nextIdx := (nextIdx + 1) % maxSize;
        flushed := flushed + 1;
      }
      EndReached(head, branch + 1 + flushed, size, maxSize);
    }

    method Clear(i: int, at: int)
      requires maxSize > 0 && buffer.Length == maxSize && 0 <= head < maxSize
      requires 0 <= i < size <= maxSize && at == Index(head, i, maxSize)
      modifies buffer
      ensures View(buffer[..], head, size) == old(View(buffer[..], head, size))[i := Nil]
    {
      UpdateOne(buffer[..], head, size, i, Nil);
      buffer[at] := Nil;
      assert buffer[..] == old(buffer[..])[at := Nil];
    }
  }

  lemma UpdateOne(buffer: seq<Slot>, head: int, count: int, i: int, x: Slot)
    requires 0 <= head < |buffer| && 0 <= i < count <= |buffer|
    ensures View(buffer[Index(head, i, |buffer|) := x], head, count) == View(buffer, head, count)[i := x]
  {
  }

  /** The scan has not wrapped around: short of `size` places it is not at the end yet. */
  lemma IndicesDiffer(head: int, i: int, size: int, n: int)
    requires 0 <= head < n && 0 < i <= size <= n && Index(head, i, n) != Index(head, size, n)
    ensures i < size
  {
  }

  lemma EndReached(head: int, i: int, size: int, n: int)
    requires 0 <= head < n && 0 < i <= size <= n && Index(head, i, n) == Index(head, size, n)
    ensures i == size
  {
  }

  /** What Flush leaves ends with the first instruction of that id, and is the oldest part
      of the buffer. */
  lemma FlushKeepsUpToTheBranch(s: seq<Instr>, id: nat)
    ensures var kept := KeptBy(s, id);
            && kept <= s
            && if exists i :: 0 <= i < |s| && s[i].id == id
               then kept != [] && kept[|kept| - 1].id == id && forall i :: 0 <= i < |kept| - 1 ==> kept[i].id != id
               else kept == s
  {
    if i :| 0 <= i < |s| && s[i].id == id {
      assert Find(s, id) <= i;
    }
  }
}
