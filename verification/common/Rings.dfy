/** Circular buffers: a head, a count, and indices taken modulo the size of the buffer. */
module Rings {

  /** The cell `i` places after `head`. */
  function Index(head: int, i: int, n: int): (r: int)
    requires 0 <= head < n && 0 <= i <= n
    ensures 0 <= r < n
    ensures r == if head + i < n then head + i else head + i - n
  {
    ModOfSum(head, i, n);
    (head + i) % n
  }

  lemma ModOfSum(head: int, i: int, n: int)
    requires 0 <= head < n && 0 <= i <= n
    ensures (head + i) % n == if head + i < n then head + i else head + i - n
  {
    if head + i >= n {
      assert (head + i) % n == (head + i - n) % n by { ModDrop(head + i, n); }
    }
  }

  lemma ModDrop(x: int, n: int)
    requires n > 0 && n <= x < 2 * n
    ensures x % n == x - n && x / n == 1
  {
  }

  lemma NextIndex(head: int, i: int, n: int)
    requires 0 <= head < n && 0 <= i < n
    ensures (Index(head, i, n) + 1) % n == Index(head, i + 1, n)
  {
    ModOfSum(Index(head, i, n), 1, n);
  }

  /** The `count` elements from `head` on, oldest first. */
  function View<T>(buffer: seq<T>, head: int, count: int): (r: seq<T>)
    requires 0 <= head < |buffer| && 0 <= count <= |buffer|
    ensures |r| == count
  {
    seq(count, i requires 0 <= i < count => buffer[Index(head, i, |buffer|)])
  }

  lemma DropFront<T>(buffer: seq<T>, head: int, count: int)
    requires 0 <= head < |buffer| && 0 < count <= |buffer|
    ensures View(buffer, head, count)[0] == buffer[head]
    ensures View(buffer, Index(head, 1, |buffer|), count - 1) == View(buffer, head, count)[1..]
  {
  }

  /** Clearing the cell that was dropped changes nothing. */
  lemma DropFrontAndClear<T>(buffer: seq<T>, head: int, count: int, blank: T)
    requires 0 <= head < |buffer| && 0 < count <= |buffer|
    ensures View(buffer[head := blank], Index(head, 1, |buffer|), count - 1) == View(buffer, head, count)[1..]
  {
  }

  lemma AddBack<T>(buffer: seq<T>, head: int, count: int, x: T)
    requires 0 <= head < |buffer| && 0 <= count < |buffer|
    ensures View(buffer[Index(head, count, |buffer|) := x], head, count + 1) == View(buffer, head, count) + [x]
  {
  }
}
