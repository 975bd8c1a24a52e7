/** What the ring of Lab4/src/ring.c stands for. It links shared memory segments by their ids and takes
    the id 0 for "no segment", although the system may hand out 0 as an id. */
module SegmentQueue {
  import opened RingQueue

  /** The segment ids in ring order from `begin`, and the messages of the busy ones. */
  datatype Slots = Slots(order: seq<int>, pending: seq<Message>) {
    predicate Valid() { |pending| <= |order| }

    predicate Full() { |pending| == |order| }

    /** The test `shmid_begin == 0` of both ring operations fails. */
    predicate Usable() { order != [] && order[0] != 0 }

    function AsQueue(): Queue { Queue(|order|, pending) }

    /** A new slot behind the last one; where the ring looks empty, a new ring. */
    function Append(id: int): Slots {
      if Usable() then Slots(order + [id], pending) else Slots(if id == 0 then [] else [id], [])
    }

    function Put(m: Message): Slots {
      if Usable() && !Full() then Slots(order, pending + [m]) else this
    }

    function Take(): Slots {
      if Usable() && pending != [] then Slots(order[1..] + [order[0]], pending[1..]) else this
    }
  }

  /** The segments of a ring built from `ids`: all of them, but a first one with the id 0 is lost. */
  function Linked(ids: seq<int>): seq<int> {
    if ids != [] && ids[0] == 0 then ids[1..] else ids
  }

  /** Operations on a ring and what they answer. */
  datatype Op = Add(message: Message) | Extract

  datatype Answer = Accepted | Refused | Got(message: Message) | Nothing

  function RingAnswers(s: Slots, ops: seq<Op>): seq<Answer>
    decreases |ops|
  {
    if ops == [] then []
    else
      match ops[0]
      case Add(m) => [if s.Usable() && !s.Full() then Accepted else Refused] + RingAnswers(s.Put(m), ops[1..])
      case Extract =>
        [if s.Usable() && s.pending != [] then Got(s.pending[0]) else Nothing] + RingAnswers(s.Take(), ops[1..])
  }

  /** The same operations on a plain bounded queue. */
  function QueueAnswers(q: Queue, ops: seq<Op>): seq<Answer>
    decreases |ops|
  {
    if ops == [] then []
    else
      match ops[0]
      case Add(m) => [if q.Full() then Refused else Accepted] + QueueAnswers(q.Put(m), ops[1..])
      case Extract => [if q.pending == [] then Nothing else Got(q.pending[0])] + QueueAnswers(q.Take(), ops[1..])
  }

  lemma {:induction false} WithoutZeroAgrees(s: Slots, ops: seq<Op>)
    requires s.Valid() && 0 !in s.order
    ensures RingAnswers(s, ops) == QueueAnswers(s.AsQueue(), ops)
    decreases |ops|
  {
    if ops != [] {
      match ops[0]
      case Add(m) => WithoutZeroAgrees(s.Put(m), ops[1..]);
      case Extract =>
        assert 0 !in s.Take().order;
        WithoutZeroAgrees(s.Take(), ops[1..]);
    }
  }

  /** Fills and empties slots until `begin` has come to position `k`, and adds once more. */
  function Probe(k: nat, m: Message): seq<Op> {
    if k == 0 then [Add(m)] else [Add(m), Extract] + Probe(k - 1, m)
  }

  lemma AddAndExtract(m: Message, rest: seq<Op>)
    ensures ([Add(m), Extract] + rest)[0] == Add(m) && ([Add(m), Extract] + rest)[1..] == [Extract] + rest
    ensures ([Extract] + rest)[0] == Extract && ([Extract] + rest)[1..] == rest
  {
  }

  /** The ring's answers to an add and an extract, on an empty usable ring: it then starts at the next segment. */
  lemma RingProbe(s: Slots, m: Message, rest: seq<Op>)
    requires s.pending == [] && s.Usable()
    ensures RingAnswers(s, [Add(m), Extract] + rest)
            == [Accepted] + ([Got(m)] + RingAnswers(Slots(s.order[1..] + [s.order[0]], []), rest))
  {
    AddAndExtract(m, rest);
    assert s.Put(m).Take() == Slots(s.order[1..] + [s.order[0]], []);
    assert RingAnswers(s.Put(m), [Extract] + rest) == [Got(m)] + RingAnswers(s.Put(m).Take(), rest);
  }

  /** The queue's answers to the same: it is empty again. */
  lemma QueueProbe(q: Queue, m: Message, rest: seq<Op>)
    requires q.pending == [] && q.capacity > 0
    ensures QueueAnswers(q, [Add(m), Extract] + rest) == [Accepted] + ([Got(m)] + QueueAnswers(q, rest))
  {
    AddAndExtract(m, rest);
    assert q.Put(m).Take() == q;
    assert QueueAnswers(q.Put(m), [Extract] + rest) == [Got(m)] + QueueAnswers(q.Put(m).Take(), rest);
  }

  lemma {:induction false} ProbeDisagrees(s: Slots, k: nat, m: Message)
    requires s.pending == [] && k < |s.order| && s.order[k] == 0 && 0 !in s.order[..k]
    ensures RingAnswers(s, Probe(k, m)) != QueueAnswers(s.AsQueue(), Probe(k, m))
    decreases k
  {
    if k == 0 {
      assert RingAnswers(s, Probe(k, m))[0] == Refused && QueueAnswers(s.AsQueue(), Probe(k, m))[0] == Accepted;
    } else {
      assert s.order[0] == s.order[..k][0];
      var next := Slots(s.order[1..] + [s.order[0]], []);
      assert next.order[..k - 1] == s.order[..k][1..];
      RingProbe(s, m, Probe(k - 1, m));
      QueueProbe(s.AsQueue(), m, Probe(k - 1, m));
      ProbeDisagrees(next, k - 1, m);
      var ring, queue := RingAnswers(next, Probe(k - 1, m)), QueueAnswers(next.AsQueue(), Probe(k - 1, m));
      assert ([Accepted] + ([Got(m)] + ring))[1..][1..] == ring && ([Accepted] + ([Got(m)] + queue))[1..][1..] == queue;
    }
  }

  lemma {:induction false} FirstZero(order: seq<int>) returns (k: nat)
    requires 0 in order
    ensures k < |order| && order[k] == 0 && 0 !in order[..k]
  {
    if order[0] == 0 {
      k := 0;
    } else {
      assert order == [order[0]] + order[1..];
      var j := FirstZero(order[1..]);
      k := j + 1;
      assert order[..k] == [order[0]] + order[1..][..j];
    }
  }

  /** A ring of the segments `order` answers every sequence of operations as a queue of its capacity does, if
      and only if none of them has the id 0. */
  lemma OrderAgrees(order: seq<int>)
    ensures (forall ops :: RingAnswers(Slots(order, []), ops) == QueueAnswers(Queue(|order|, []), ops)) <==> 0 !in order
  {
    var s := Slots(order, []);
    if 0 in order {
      var k := FirstZero(order);
      ProbeDisagrees(s, k, seq(LEN_MESSAGE, _ => 0));
    } else {
      forall ops ensures RingAnswers(s, ops) == QueueAnswers(Queue(|order|, []), ops) {
        WithoutZeroAgrees(s, ops);
      }
    }
  }

  /** Adds the same message `k` times. */
  function Fill(k: nat, m: Message): seq<Op> {
    if k == 0 then [] else [Add(m)] + Fill(k - 1, m)
  }

  /** A ring with fewer free slots than the queue refuses first. */
  lemma {:induction false} FillDisagrees(s: Slots, q: Queue, k: nat, m: Message)
    requires s.Valid() && |q.pending| + k <= q.capacity && |s.pending| + k > |s.order|
    ensures RingAnswers(s, Fill(k, m)) != QueueAnswers(q, Fill(k, m))
    decreases k
  {
    var ops := Fill(k, m);
    assert ops[1..] == Fill(k - 1, m);
    if !s.Usable() || s.Full() {
      assert RingAnswers(s, ops)[0] == Refused && QueueAnswers(q, ops)[0] == Accepted;
    } else {
      FillDisagrees(s.Put(m), q.Put(m), k - 1, m);
      assert RingAnswers(s, ops)[1..] == RingAnswers(s.Put(m), Fill(k - 1, m));
      assert QueueAnswers(q, ops)[1..] == QueueAnswers(q.Put(m), Fill(k - 1, m));
    }
  }

  /** After an `append` for each of the segments `ids`, the ring answers every sequence of operations as a queue
      of that many slots does, if and only if the system has handed out no segment with the id 0. */
  lemma AgreesWithQueue(ids: seq<int>)
    requires forall i, j | 0 <= i < j < |ids| :: ids[i] != ids[j]
    ensures (forall ops :: RingAnswers(Slots(Linked(ids), []), ops) == QueueAnswers(Queue(|ids|, []), ops))
            <==> 0 !in ids
  {
    if ids != [] && ids[0] == 0 {
      FillDisagrees(Slots(Linked(ids), []), Queue(|ids|, []), |ids|, seq(LEN_MESSAGE, _ => 0));
    } else {
      OrderAgrees(ids);
    }
  }
}
