/** What the rings of Lab4 and Lab5 stand for: a queue of messages with a capacity. */
module RingQueue {
  const LEN_MESSAGE := 260

  newtype Byte = x: int | 0 <= x < 256

  /** The fixed-size message buffer of a slot. */
  type Message = m: seq<Byte> | |m| == LEN_MESSAGE witness seq(LEN_MESSAGE, _ => 0)

  /** `capacity` slots, of which the oldest `|pending|` in ring order are busy. */
  datatype Queue = Queue(capacity: nat, pending: seq<Message>) {
    predicate Valid() { |pending| <= capacity }

    function Free(): int { capacity - |pending| }

    predicate Full() { |pending| == capacity }

    /** One more free slot. */
    function Grow(): Queue { Queue(capacity + 1, pending) }

    /** One slot less: a free one if there is one, else the oldest message goes with its slot. */
    function Shrink(): (q: Queue)
      requires capacity > 0
    {
      Queue(capacity - 1, if Full() && pending != [] then pending[1..] else pending)
    }

    /** A message is refused when there is no free slot. */
    function Put(m: Message): Queue {
      if Full() then this else Queue(capacity, pending + [m])
    }

    function Take(): Queue {
      if pending == [] then this else Queue(capacity, pending[1..])
    }
  }

  /** The position after `i` on a ring of `n`. */
  function Succ(i: nat, n: nat): nat {
    if i + 1 < n then i + 1 else 0
  }

  /** Adding a slot and removing one at once changes nothing and loses no message. */
  lemma GrowThenShrink(q: Queue)
    requires q.Valid()
    ensures !q.Grow().Full() && q.Grow().Shrink() == q
  {
  }

  // ---- Messages in order.

  /** `a` is `b` with some elements left out. */
  ghost predicate Subsequence<T>(a: seq<T>, b: seq<T>)
    decreases |b|
  {
    || a == []
    || (b != [] && a[|a| - 1] == b[|b| - 1] && Subsequence(a[..|a| - 1], b[..|b| - 1]))
    || (b != [] && Subsequence(a, b[..|b| - 1]))
  }

  lemma {:induction false} SubsequenceExtends<T>(a: seq<T>, b: seq<T>, c: seq<T>)
    requires Subsequence(a, b)
    ensures Subsequence(a, b + c)
    decreases |c|
  {
    if c == [] {
      assert b + c == b;
    } else {
      SubsequenceExtends(a, b, c[..|c| - 1]);
      assert (b + c)[..|b + c| - 1] == b + c[..|c| - 1];
    }
  }

  lemma {:induction false} SubsequenceOfItself<T>(a: seq<T>)
    ensures Subsequence(a, a)
  {
    if a != [] {
      SubsequenceOfItself(a[..|a| - 1]);
    }
  }

  /** One more element in the middle may be left out. */
  lemma {:induction false} SubsequenceSkips<T>(a: seq<T>, b: seq<T>, x: T, c: seq<T>)
    requires Subsequence(a, b + c)
    ensures Subsequence(a, b + [x] + c)
    decreases |c|
  {
    if c == [] {
      assert b + c == b && b + [x] + c == b + [x];
      SubsequenceExtends(a, b, [x]);
    } else {
      var front := c[..|c| - 1];
      assert (b + c)[..|b + c| - 1] == b + front && (b + [x] + c)[..|b + [x] + c| - 1] == b + [x] + front;
      if Subsequence(a, b + front) {
        SubsequenceSkips(a, b, x, front);
      } else if a != [] {
        SubsequenceSkips(a[..|a| - 1], b, x, front);
      }
    }
  }

  lemma {:induction false} SubsequenceTransitive<T>(a: seq<T>, b: seq<T>, c: seq<T>)
    requires Subsequence(a, b) && Subsequence(b, c)
    ensures Subsequence(a, c)
    decreases |c|
  {
    if a != [] {
      assert b != [] && c != [];
      var b', c' := b[..|b| - 1], c[..|c| - 1];
      if Subsequence(b, c') {
        SubsequenceTransitive(a, b, c');
      } else if Subsequence(a, b') {
        SubsequenceTransitive(a, b', c');
      } else {
        SubsequenceTransitive(a[..|a| - 1], b', c');
      }
    }
  }
}
