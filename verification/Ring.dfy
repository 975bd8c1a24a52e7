/** The circular doubly linked ring of Lab5/src/ring.c, whose slots come and go while messages are
    pending. `nodes` lists the slots in ring order from `begin`; the first `filled` of them are busy. */
module Ring {
  import opened Options
  import opened RingQueue

  class RingNode {
    var next: RingNode?
    var prev: RingNode?
    const message: array<Byte>
    var flagIsBusy: bool

    constructor ()
      ensures next == null && prev == null && !flagIsBusy
      ensures message.Length == LEN_MESSAGE && fresh(message)
    {
      next, prev, flagIsBusy := null, null, false;
      message := new Byte[LEN_MESSAGE](_ => 0);
    }
  }

  ghost predicate Distinct(nodes: seq<RingNode>) {
    forall i, j | 0 <= i < j < |nodes| :: nodes[i] != nodes[j] && nodes[i].message != nodes[j].message
  }

  /** Node `i` and the one after it point at each other. */
  ghost predicate Joined(nodes: seq<RingNode>, i: nat)
    requires i < |nodes|
    reads nodes`next, nodes`prev
  {
    nodes[i].next == nodes[Succ(i, |nodes|)] && nodes[Succ(i, |nodes|)].prev == nodes[i]
  }

  /** `next` and `prev` are inverse and one cycle visits exactly these nodes. */
  ghost predicate Cycle(nodes: seq<RingNode>)
    reads nodes`next, nodes`prev
  {
    && |nodes| > 0 && Distinct(nodes)
    && (forall i | 0 <= i < |nodes| :: Joined(nodes, i))
    && (forall i | 0 <= i < |nodes| :: nodes[i].message.Length == LEN_MESSAGE)
  }

  ghost function Objects(nodes: seq<RingNode>): set<object> {
    set o: object | o in nodes
  }

  ghost function Buffers(nodes: seq<RingNode>): set<array<Byte>> {
    set n | n in nodes :: n.message
  }

  lemma PrevOf(nodes: seq<RingNode>, i: nat)
    requires Cycle(nodes) && i < |nodes|
    ensures nodes[i].prev == nodes[if i > 0 then i - 1 else |nodes| - 1]
  {
    assert Joined(nodes, if i > 0 then i - 1 else |nodes| - 1);
  }

  /** The order of a cycle may start at the next node. */
  lemma RotateCycle(nodes: seq<RingNode>)
    requires Cycle(nodes)
    ensures Cycle(nodes[1..] + [nodes[0]])
  {
    var turned, n := nodes[1..] + [nodes[0]], |nodes|;
    assert forall i | 0 <= i < n :: turned[i] == nodes[Succ(i, n)];
    forall i | 0 <= i < n ensures Joined(turned, i) {
      assert Joined(nodes, Succ(i, n));
    }
  }

  lemma RotateCycleBack(nodes: seq<RingNode>)
    requires Cycle(nodes)
    ensures Cycle([nodes[|nodes| - 1]] + nodes[..|nodes| - 1])
  {
    var n := |nodes|;
    var turned := [nodes[n - 1]] + nodes[..n - 1];
    assert forall i | 0 <= i < n :: nodes[i] == turned[Succ(i, n)];
    forall i | 0 <= i < n ensures Joined(turned, i) {
      assert Joined(nodes, if i > 0 then i - 1 else n - 1);
    }
  }

  lemma SameNodes(nodes: seq<RingNode>, turned: seq<RingNode>)
    requires nodes != [] && turned == nodes[1..] + [nodes[0]]
    ensures Objects(turned) == Objects(nodes) && Buffers(turned) == Buffers(nodes)
  {
    assert forall n :: n in turned <==> n in nodes by {
      assert nodes == [nodes[0]] + nodes[1..];
    }
  }

  ghost function Text(node: RingNode): Message
    requires node.message.Length == LEN_MESSAGE
    reads node.message
  {
    node.message[..]
  }

  /** The messages of the first `filled` nodes. */
  ghost function Texts(nodes: seq<RingNode>, filled: nat): (r: seq<Message>)
    requires filled <= |nodes| && forall i | 0 <= i < |nodes| :: nodes[i].message.Length == LEN_MESSAGE
    reads Buffers(nodes)
    ensures |r| == filled && forall i | 0 <= i < filled :: r[i] == Text(nodes[i])
  {
    seq(filled, i requires 0 <= i < filled reads Buffers(nodes) => assert nodes[i] in nodes; Text(nodes[i]))
  }

  /** The busy nodes are the arc of the first `filled`. */
  ghost predicate BusyArc(nodes: seq<RingNode>, filled: nat)
    reads nodes`flagIsBusy
  {
    filled <= |nodes| && forall i | 0 <= i < |nodes| :: nodes[i].flagIsBusy <==> i < filled
  }

  /** The node after the busy arc. */
  function AfterArc(nodes: seq<RingNode>, filled: nat): RingNode
    requires filled <= |nodes| && nodes != []
  {
    nodes[if filled == |nodes| then 0 else filled]
  }

  /** The ring after its first node has been freed, in the order that starts at the next node. */
  lemma FirstFreed(nodes: seq<RingNode>, turned: seq<RingNode>, filled: nat)
    requires Cycle(nodes) && turned == nodes[1..] + [nodes[0]] && 0 < filled <= |nodes|
    requires forall i | 0 <= i < |nodes| :: nodes[i].flagIsBusy <==> 0 < i < filled
    ensures Cycle(turned) && BusyArc(turned, filled - 1)
    ensures nodes[0].next == turned[0] && AfterArc(turned, filled - 1) == AfterArc(nodes, filled)
    ensures Texts(turned, filled - 1) == Texts(nodes, filled)[1..]
  {
    assert Joined(nodes, 0);
    RotateCycle(nodes);
    assert forall i | 0 <= i < |nodes| :: turned[i] == nodes[Succ(i, |nodes|)];
  }

  /** The ring after the node behind the busy arc has been filled. */
  lemma NextFilled(nodes: seq<RingNode>, filled: nat)
    requires Cycle(nodes) && filled < |nodes|
    requires forall i | 0 <= i < |nodes| :: nodes[i].flagIsBusy <==> i <= filled
    ensures BusyArc(nodes, filled + 1)
    ensures nodes[filled].next == AfterArc(nodes, filled + 1)
    ensures Texts(nodes, filled + 1) == Texts(nodes, filled) + [Text(nodes[filled])]
  {
    assert Joined(nodes, filled);
  }

  method CopyIn(node: RingNode, message: Message)
    requires node.message.Length == LEN_MESSAGE
    modifies node.message
    ensures node.message[..] == message
  {
    for i := 0 to LEN_MESSAGE
      invariant node.message[..i] == message[..i]
    {
      node.message[i] := message[i];
    }
  }

  method CopyOut(node: RingNode) returns (message: Message)
    requires node.message.Length == LEN_MESSAGE
    ensures message == node.message[..]
  {
    var copy := new Byte[LEN_MESSAGE](_ => 0);
    for i := 0 to LEN_MESSAGE
      invariant copy[..i] == node.message[..i]
    {
      copy[i] := node.message[i];
    }
    message := copy[..];
  }

  class RingBuffer {
    var begin: RingNode?
    var tail: RingNode?
    var produced: nat      // left uninitialised by the constructor, as in the program
    var consumed: nat
    var sizeQueue: nat
    ghost var nodes: seq<RingNode>
    ghost var filled: nat

    ghost predicate Linked()
      reads this, nodes
    {
      && Cycle(nodes)
      && sizeQueue == |nodes|
      && begin == nodes[0]
    }

    /** The busy nodes are the arc from `begin` up to `tail`; `begin == tail` is a full or an empty ring. */
    ghost predicate Valid()
      reads this, nodes
    {
      && Linked()
      && BusyArc(nodes, filled)
      && tail == AfterArc(nodes, filled)
    }

    ghost function Repr(): set<object>
      reads this
    {
      var buffers: set<object> := Buffers(nodes);
      {this as object} + Objects(nodes) + buffers
    }

    ghost function View(): (q: Queue)
      requires Valid()
      reads this, nodes, Buffers(nodes)
      ensures q.Valid()
    {
      Queue(|nodes|, Texts(nodes, filled))
    }

    constructor ()
      ensures begin == null && tail == null && sizeQueue == 0 && nodes == [] && filled == 0
    {
      begin, tail, sizeQueue := null, null, 0;
      nodes, filled := [], 0;
    }

    /** `begin == tail` exactly when the ring is full or empty, and the flag of `begin` tells which. */
    lemma BeginMeetsTail()
      requires Valid()
      ensures begin == tail <==> View().Full() || View().pending == []
      ensures begin.flagIsBusy <==> View().pending != []
    {
    }

    /** The ring after the slot behind the busy arc has been filled. */
    lemma Filled(was: nat)
      requires Cycle(nodes) && was < |nodes| && filled == was + 1
      requires forall i | 0 <= i < |nodes| :: nodes[i].flagIsBusy <==> i <= was
      requires sizeQueue == |nodes| && begin == nodes[0] && tail == nodes[was].next
      ensures Valid() && View() == Queue(|nodes|, Texts(nodes, was) + [Text(nodes[was])])
    {
      NextFilled(nodes, was);
    }

    /** The ring after its oldest busy slot has been freed. */
    lemma Freed(before: seq<RingNode>, was: nat)
      requires Cycle(before) && 0 < was <= |before| && nodes == before[1..] + [before[0]] && filled == was - 1
      requires forall i | 0 <= i < |before| :: before[i].flagIsBusy <==> 0 < i < was
      requires sizeQueue == |before| && begin == before[0].next && tail == AfterArc(before, was)
      ensures Valid() && View() == Queue(|before|, Texts(before, was)[1..])
    {
      FirstFreed(before, nodes, was);
    }

    /** Where they meet, it is full or empty. */
    lemma FullOrEmpty()
      requires Valid() && begin == tail
      ensures (filled == 0 || filled == |nodes|) && begin == nodes[0]
      ensures begin.flagIsBusy <==> View().Full()
    {
    }

    /** Where `begin` and `tail` differ, the ring is partly filled, and `tail` is the slot behind the busy arc. */
    lemma PartlyFilled()
      requires Valid() && begin != tail
      ensures 0 < filled < |nodes| && tail == nodes[filled] && begin == nodes[0] && !View().Full()
    {
    }

    /** Marks the slot at `tail` busy and moves `tail` on. */
    method FillTail()
      requires Valid() && !tail.flagIsBusy
      modifies this, nodes
      ensures Valid() && nodes == old(nodes)
      ensures View() == Queue(|nodes|, old(View()).pending + [old(Text(tail))])
      ensures produced == old(produced) + 1 && consumed == old(consumed)
    {
      tail.flagIsBusy := true;
      tail := tail.next;
      produced := produced + 1;
      filled := filled + 1;
      Filled(old(filled));
    }

    /** Fills the free slot at `tail`, if there is one. */
    method AddMessage(message: Message) returns (accepted: bool)
      requires Valid()
      modifies this, nodes, Buffers(nodes)
      ensures Valid() && nodes == old(nodes) && Repr() == old(Repr())
      ensures accepted <==> !old(View()).Full()
      ensures View() == old(View()).Put(message)
      ensures produced == old(produced) + (if accepted then 1 else 0) && consumed == old(consumed)
    {
      var curr := tail;
      if curr.flagIsBusy {
        return false;
      }
      CopyIn(curr, message);
      assert Texts(nodes, filled) == old(View()).pending;
      FillTail();
      accepted := true;
    }

    /** Frees the slot at `begin` and moves `begin` on. */
    method FreeBegin()
      requires Valid() && begin.flagIsBusy
      modifies this, nodes
      ensures Valid() && Objects(nodes) == old(Objects(nodes)) && Buffers(nodes) == old(Buffers(nodes))
      ensures View() == old(View()).Take() && consumed == old(consumed) + 1 && produced == old(produced)
    {
      begin.flagIsBusy := false;
      begin := begin.next;
      consumed := consumed + 1;
      nodes := nodes[1..] + [nodes[0]];
      filled := filled - 1;
      Freed(old(nodes), old(filled));
      SameNodes(old(nodes), nodes);
      assert Texts(old(nodes), old(filled)) == old(View()).pending;
    }

    /** Empties the busy slot at `begin`, if there is one. */
    method ExtractMessage() returns (message: Option<Message>)
      requires Valid()
      modifies this, nodes
      ensures Valid()
      ensures message == if old(View()).pending == [] then None else Some(old(View()).pending[0])
      ensures View() == old(View()).Take()
      ensures consumed == old(consumed) + (if message.Some? then 1 else 0) && produced == old(produced)
      ensures Repr() == old(Repr())
    {
      var curr := begin;
      if !curr.flagIsBusy {
        return None;
      }
      var copy := CopyOut(curr);
      message := Some(copy);
      FreeBegin();
    }
  }

  /** The queue that a possibly absent ring stands for; no ring is a queue without slots. */
  ghost function ViewOf(head: RingBuffer?): (q: Queue)
    requires head != null ==> head.Valid()
    reads head, if head == null then [] else head.nodes, if head == null then {} else Buffers(head.nodes)
    ensures q.Valid()
  {
    if head == null then Queue(0, []) else head.View()
  }

  /** Linking `x` between the last node and the first closes the cycle again. */
  lemma InsertedLast(nodes: seq<RingNode>, x: RingNode)
    requires |nodes| > 0 && Distinct(nodes + [x]) && x.message.Length == LEN_MESSAGE
    requires forall i | 0 <= i < |nodes| :: nodes[i].message.Length == LEN_MESSAGE
    requires forall i | 0 <= i < |nodes| - 1 :: nodes[i].next == nodes[i + 1] && nodes[i + 1].prev == nodes[i]
    requires nodes[|nodes| - 1].next == x && x.prev == nodes[|nodes| - 1]
    requires x.next == nodes[0] && nodes[0].prev == x
    ensures Cycle(nodes + [x])
  {
  }

  /** The first half of `append` on an existing ring: a new node is linked in behind the last one. */
  method Insert(queue: RingBuffer) returns (buffer: RingNode)
    requires queue.Linked()
    modifies queue`sizeQueue, queue.nodes
    ensures fresh(buffer) && fresh(buffer.message) && !buffer.flagIsBusy
    ensures queue.sizeQueue == old(queue.sizeQueue) + 1
    ensures Cycle(queue.nodes + [buffer])
    ensures forall n | n in queue.nodes :: n.flagIsBusy == old(n.flagIsBusy)
  {
    ghost var nodes := queue.nodes;
    var begin := queue.begin;
    PrevOf(nodes, 0);
    assert Joined(nodes, 0);
    queue.sizeQueue := queue.sizeQueue + 1;
    buffer := new RingNode();
    if begin.next == begin {
      begin.next := buffer;
      begin.prev := buffer;
      buffer.next := begin;
      buffer.prev := begin;
    } else {
      var last := begin.prev;
      buffer.next := begin;
      buffer.prev := last;
      last.next := buffer;
      begin.prev := buffer;
    }
    forall i | 0 <= i < |nodes| - 1 ensures nodes[i].next == nodes[i + 1] && nodes[i + 1].prev == nodes[i] {
      assert old(Joined(nodes, i));
    }
    InsertedLast(nodes, buffer);
  }

  /** The arc and the messages after a free node has been added behind the last one. */
  lemma GrownLast(nodes: seq<RingNode>, x: RingNode, filled: nat)
    requires Cycle(nodes + [x]) && BusyArc(nodes, filled) && !x.flagIsBusy
    ensures BusyArc(nodes + [x], filled)
    ensures forall i | 0 <= i < |nodes| :: nodes[i].message.Length == LEN_MESSAGE
    ensures Texts(nodes + [x], filled) == Texts(nodes, filled)
  {
    assert forall i | 0 <= i < |nodes| :: (nodes + [x])[i] == nodes[i];
  }

  lemma GrownFirst(nodes: seq<RingNode>, x: RingNode)
    requires Cycle(nodes + [x]) && BusyArc(nodes, 0) && !x.flagIsBusy
    ensures Cycle([x] + nodes) && BusyArc([x] + nodes, 0)
  {
    RotateCycleBack(nodes + [x]);
    assert (nodes + [x])[..|nodes|] == nodes;
  }

  /** `append` on no ring: a ring of one free slot. */
  method NewRing() returns (queue: RingBuffer)
    ensures fresh(queue.Repr()) && queue.Valid() && queue.View() == Queue(1, [])
  {
    queue := new RingBuffer();
    var node := new RingNode();
    queue.begin := node;
    queue.tail := node;
    node.next := node;
    node.prev := node;
    queue.sizeQueue := queue.sizeQueue + 1;
    queue.nodes := [node];
    assert Joined(queue.nodes, 0);
  }

  /** The second half of `append`: which node the ring has to start and go on at. */
  method Settle(queue: RingBuffer, buffer: RingNode, flagAfter: bool)
    requires queue.nodes != [] && queue.begin == queue.nodes[0]
    requires Cycle(queue.nodes + [buffer]) && !buffer.flagIsBusy && BusyArc(queue.nodes, queue.filled)
    requires queue.tail == AfterArc(queue.nodes, queue.filled)
    requires queue.sizeQueue == |queue.nodes| + 1
    modifies queue
    ensures queue.Linked() && queue.filled == old(queue.filled)
    ensures || queue.nodes == old(queue.nodes) + [buffer]
            || (queue.filled == 0 && queue.nodes == [buffer] + old(queue.nodes))
    ensures flagAfter || queue.filled < |old(queue.nodes)| ==> queue.Valid()
    ensures !flagAfter && queue.filled == |old(queue.nodes)| ==> queue.tail == queue.begin
  {
    ghost var nodes, filled := queue.nodes, queue.filled;
    GrownLast(nodes, buffer, filled);
    assert Joined(nodes + [buffer], |nodes|);
    queue.nodes := nodes + [buffer];
    if flagAfter {
      if buffer.next == queue.tail {
        if queue.tail == queue.begin && !queue.begin.flagIsBusy {
          queue.tail := buffer;
          queue.begin := buffer;
          GrownFirst(nodes, buffer);
          queue.nodes := [buffer] + nodes;
        } else {
          queue.tail := buffer;
        }
      }
    }
  }

  /** `append` on an existing ring. */
  method Extend(queue: RingBuffer, flagAfter: bool)
    requires queue.Valid()
    modifies queue, queue.nodes
    ensures fresh(queue.Repr() - old(queue.Repr()))
    ensures queue.Valid() <==> flagAfter || !old(queue.View()).Full()
    ensures queue.Valid() ==> queue.View() == old(queue.View()).Grow()
    ensures !queue.Valid() ==>
              && queue.Linked() && queue.tail == queue.begin && queue.begin.flagIsBusy
              && exists n :: n in queue.nodes && !n.flagIsBusy
  {
    ghost var nodes, filled := queue.nodes, queue.filled;
    ghost var texts := Texts(nodes, filled);
    var buffer := Insert(queue);
    Settle(queue, buffer, flagAfter);
    assert Texts(nodes, filled) == texts;
    assert Texts(queue.nodes, filled) == texts;
    assert buffer in queue.nodes;
    if !flagAfter && filled == |nodes| {
      assert queue.begin == nodes[0] && queue.begin.flagIsBusy;
      assert queue.nodes[filled] == buffer;
    }
  }

  /** Makes room for one more message: a new slot behind the last one, or a new ring. With the flag, `tail`
      is left on a free slot; without it, appending to a full ring leaves `tail` on a busy slot although
      the new one is free, so the ring is only extended like that while it is not full. */
  method Append(head: RingBuffer?, flagAfter: bool) returns (queue: RingBuffer)
    requires head != null ==> head.Valid()
    modifies if head == null then {} else {head}, if head == null then [] else head.nodes
    ensures if head == null then fresh(queue.Repr()) else queue == head && fresh(queue.Repr() - old(head.Repr()))
    ensures queue.Valid() <==> flagAfter || head == null || !old(ViewOf(head)).Full()
    ensures queue.Valid() ==> queue.View() == old(ViewOf(head)).Grow()
    ensures !queue.Valid() ==>
              && queue.Linked() && queue.tail == queue.begin && queue.begin.flagIsBusy
              && exists n :: n in queue.nodes && !n.flagIsBusy
  {
    if head == null {
      queue := NewRing();
    } else {
      queue := head;
      Extend(queue, flagAfter);
    }
  }

  // ---- Removing a slot.

  /** `nodes` without node `k`. */
  ghost function Without(nodes: seq<RingNode>, k: nat): (rest: seq<RingNode>)
    requires k < |nodes|
    ensures |rest| == |nodes| - 1
    ensures forall i | 0 <= i < |rest| :: rest[i] == nodes[if i < k then i else i + 1]
  {
    nodes[..k] + nodes[k + 1..]
  }

  /** Joining the neighbours of node `k` closes the cycle around the others. */
  lemma Unlinked(nodes: seq<RingNode>, k: nat)
    requires |nodes| >= 2 && k < |nodes| && Distinct(nodes)
    requires forall i | 0 <= i < |nodes| :: nodes[i].message.Length == LEN_MESSAGE
    requires forall i | 0 <= i < |nodes| && i != k && Succ(i, |nodes|) != k :: Joined(nodes, i)
    requires var before, after := nodes[if k > 0 then k - 1 else |nodes| - 1], nodes[Succ(k, |nodes|)];
             before.next == after && after.prev == before
    ensures Cycle(Without(nodes, k))
  {
    var rest, n := Without(nodes, k), |nodes|;
    forall i | 0 <= i < |rest| ensures Joined(rest, i) {
      var j := if i < k then i else i + 1;
      assert rest[Succ(i, n - 1)] == nodes[if Succ(j, n) == k then Succ(k, n) else Succ(j, n)];
      if Succ(j, n) != k {
        assert Joined(nodes, j);
      }
    }
  }

  /** The statements that take a node out of a ring of at least two. */
  method Unlink(ghost nodes: seq<RingNode>, ghost k: nat, node: RingNode, ghost filled: nat)
    requires Cycle(nodes) && |nodes| >= 2 && k < |nodes| && node == nodes[k] && BusyArc(nodes, filled)
    modifies nodes
    ensures Cycle(Without(nodes, k)) && BusyArc(nodes, filled)
    ensures node.next == nodes[Succ(k, |nodes|)] && node.flagIsBusy == old(node.flagIsBusy)
  {
    PrevOf(nodes, k);
    assert Joined(nodes, k);
    node.next.prev := node.prev;
    node.prev.next := node.next;
    forall i | 0 <= i < |nodes| && i != k && Succ(i, |nodes|) != k ensures Joined(nodes, i) {
      assert old(Joined(nodes, i));
    }
    Unlinked(nodes, k);
  }

  /** The messages when the first, oldest one goes with its node. */
  lemma WithoutFirst(nodes: seq<RingNode>, filled: nat)
    requires |nodes| >= 2 && BusyArc(nodes, filled) && (filled == 0 || filled == |nodes|)
    requires forall i | 0 <= i < |nodes| :: nodes[i].message.Length == LEN_MESSAGE
    ensures var left := if filled == 0 then 0 else filled - 1;
            && BusyArc(Without(nodes, 0), left)
            && AfterArc(Without(nodes, 0), left) == nodes[1]
            && Texts(Without(nodes, 0), left) == if filled == 0 then [] else Texts(nodes, filled)[1..]
  {
    assert Without(nodes, 0) == nodes[1..];
  }

  /** The messages when the free node behind the arc goes. */
  lemma WithoutFree(nodes: seq<RingNode>, filled: nat)
    requires BusyArc(nodes, filled) && 0 < filled < |nodes|
    requires forall i | 0 <= i < |nodes| :: nodes[i].message.Length == LEN_MESSAGE
    ensures BusyArc(Without(nodes, filled), filled)
    ensures AfterArc(Without(nodes, filled), filled) == nodes[Succ(filled, |nodes|)]
    ensures Texts(Without(nodes, filled), filled) == Texts(nodes, filled)
  {
  }

  lemma SubsetNodes(nodes: seq<RingNode>, k: nat)
    requires k < |nodes|
    ensures Objects(Without(nodes, k)) <= Objects(nodes) && Buffers(Without(nodes, k)) <= Buffers(nodes)
  {
    assert forall n | n in Without(nodes, k) :: n in nodes;
  }

  /** The ring once its fields say that the first node has gone. */
  lemma FirstGone(queue: RingBuffer, nodes: seq<RingNode>, filled: nat)
    requires |nodes| >= 2 && BusyArc(nodes, filled) && (filled == 0 || filled == |nodes|)
    requires forall i | 0 <= i < |nodes| :: nodes[i].message.Length == LEN_MESSAGE
    requires queue.nodes == Without(nodes, 0) && Cycle(queue.nodes) && queue.sizeQueue == |nodes| - 1
    requires queue.begin == queue.tail == nodes[1] && queue.filled == if filled == 0 then 0 else filled - 1
    ensures queue.Valid() && queue.View() == Queue(|nodes|, Texts(nodes, filled)).Shrink()
  {
    WithoutFirst(nodes, filled);
  }

  /** The statements of `erase` where `begin == tail`: the node at `begin` is taken out. */
  method UnlinkFirst(queue: RingBuffer) returns (busy: bool)
    requires queue.Valid() && queue.tail == queue.begin && |queue.nodes| >= 2
    modifies queue, queue.nodes
    ensures queue.nodes == old(queue.nodes) && queue.filled == old(queue.filled)
    ensures Cycle(Without(queue.nodes, 0)) && BusyArc(queue.nodes, queue.filled)
    ensures queue.sizeQueue == |queue.nodes| - 1 && queue.begin == queue.tail == queue.nodes[1]
    ensures busy == old(queue.begin.flagIsBusy)
  {
    queue.sizeQueue := queue.sizeQueue - 1;
    var buffer := queue.begin;
    Unlink(queue.nodes, 0, buffer, queue.filled);
    queue.begin := buffer.next;
    queue.tail := buffer.next;
    busy := buffer.flagIsBusy;
  }

  /** `erase` where `begin == tail`, on at least two nodes: the node at `begin` goes. */
  method EraseFirst(queue: RingBuffer) returns (busy: bool)
    requires queue.Valid() && queue.tail == queue.begin && |queue.nodes| >= 2
    modifies queue, queue.nodes
    ensures queue.Valid() && queue.nodes == Without(old(queue.nodes), 0)
    ensures busy == old(queue.View().Full()) && queue.View() == old(queue.View()).Shrink()
  {
    ghost var nodes, filled := queue.nodes, queue.filled;
    ghost var texts := Texts(nodes, filled);
    queue.FullOrEmpty();
    busy := UnlinkFirst(queue);
    queue.nodes := Without(nodes, 0);
    queue.filled := if filled == 0 then 0 else filled - 1;
    FirstGone(queue, nodes, filled);
    assert Texts(nodes, filled) == texts;
  }

  /** The ring once its fields say that the free node behind the arc has gone. */
  lemma FreeGone(queue: RingBuffer, nodes: seq<RingNode>, filled: nat)
    requires BusyArc(nodes, filled) && 0 < filled < |nodes|
    requires forall i | 0 <= i < |nodes| :: nodes[i].message.Length == LEN_MESSAGE
    requires queue.nodes == Without(nodes, filled) && Cycle(queue.nodes) && queue.sizeQueue == |nodes| - 1
    requires queue.begin == nodes[0] && queue.tail == nodes[Succ(filled, |nodes|)] && queue.filled == filled
    ensures queue.Valid() && queue.View() == Queue(|nodes|, Texts(nodes, filled)).Shrink()
  {
    WithoutFree(nodes, filled);
  }

  /** `erase` where `begin != tail`: the free node at `tail` goes. This is the branch for a ring of two. */
  method EraseOfTwo(queue: RingBuffer) returns (busy: bool)
    requires queue.Valid() && queue.tail != queue.begin && |queue.nodes| == 2
    modifies queue, queue.nodes
    ensures queue.Valid() && queue.nodes == Without(old(queue.nodes), 1)
    ensures busy == old(queue.View().Full()) && queue.View() == old(queue.View()).Shrink()
  {
    ghost var nodes := queue.nodes;
    ghost var texts := Texts(nodes, 1);
    assert queue.filled == 1;
    assert Joined(nodes, 0) && Joined(nodes, 1);
    queue.sizeQueue := queue.sizeQueue - 1;
    queue.tail := queue.tail.prev;
    busy := queue.tail.next.flagIsBusy;
    queue.tail.next := queue.tail;
    queue.tail.prev := queue.tail;
    Unlinked(nodes, 1);
    queue.nodes := Without(nodes, 1);
    FreeGone(queue, nodes, 1);
    assert Texts(nodes, 1) == texts;
  }

  /** The branch for a longer ring. */
  method EraseBehind(queue: RingBuffer) returns (busy: bool)
    requires queue.Valid() && queue.tail != queue.begin && |queue.nodes| > 2 && queue.filled < |queue.nodes|
    modifies queue, queue.nodes
    ensures queue.Valid() && queue.nodes == Without(old(queue.nodes), old(queue.filled))
    ensures busy == old(queue.View().Full()) && queue.View() == old(queue.View()).Shrink()
  {
    ghost var nodes, filled := queue.nodes, queue.filled;
    ghost var texts := Texts(nodes, filled);
    queue.PartlyFilled();
    queue.sizeQueue := queue.sizeQueue - 1;
    var buffer := queue.tail;
    Unlink(nodes, filled, buffer, filled);
    queue.tail := buffer.next;
    busy := buffer.flagIsBusy;
    queue.nodes := Without(nodes, filled);
    FreeGone(queue, nodes, filled);
    assert Texts(nodes, filled) == texts;
  }

  /** The neighbours of `begin` are the same node exactly on a ring of one or two. */
  lemma NeighboursMeet(nodes: seq<RingNode>)
    requires Cycle(nodes)
    ensures nodes[0].next == nodes[0].prev <==> |nodes| <= 2
    ensures nodes[0].next == nodes[0] <==> |nodes| == 1
  {
    PrevOf(nodes, 0);
    assert Joined(nodes, 0);
  }

  /** Removes a slot and says whether it was a busy one; without a ring the program exits. */
  method Erase(head: RingBuffer?) returns (exited: bool, queue: RingBuffer?, busy: bool)
    requires head != null ==> head.Valid()
    modifies if head == null then {} else {head}, if head == null then [] else head.nodes
    ensures exited <==> head == null
    ensures queue != null ==> queue == head && queue.Valid() && queue.Repr() <= old(head.Repr())
    ensures head != null ==>
              && busy == old(ViewOf(head)).Full()
              && ViewOf(queue) == old(ViewOf(head)).Shrink()
              && (queue == null <==> old(ViewOf(head)).capacity == 1)
  {
    if head == null {
      return true, null, false;
    }
    exited, queue := false, head;
    NeighboursMeet(head.nodes);
    if head.tail == head.begin {
      if head.begin == head.begin.next {
        busy := head.begin.flagIsBusy;
        queue := null;
      } else {
        busy := EraseFirst(head);
        SubsetNodes(old(head.nodes), 0);
      }
    } else if head.begin.next == head.begin.prev {
      busy := EraseOfTwo(head);
      SubsetNodes(old(head.nodes), 1);
    } else {
      head.PartlyFilled();
      busy := EraseBehind(head);
      SubsetNodes(old(head.nodes), old(head.filled));
    }
  }

  /** '+' and then '-': `append` leaves a free slot and `erase` takes it away again, so that no message is lost,
      the capacity is as before, and a ring made from nothing is gone. */
  method AppendThenErase(head: RingBuffer?) returns (queue: RingBuffer?, busy: bool)
    requires head != null ==> head.Valid()
    modifies if head == null then {} else {head}, if head == null then [] else head.nodes
    ensures !busy && (queue != null ==> queue.Valid()) && ViewOf(queue) == old(ViewOf(head))
    ensures queue == null <==> head == null
  {
    var grown := Append(head, true);
    var exited;
    forall i | 0 <= i < |grown.nodes|
      ensures fresh(grown.nodes[i]) || (head != null && grown.nodes[i] in old(head.nodes))
    {
      assert grown.nodes[i] in grown.nodes && grown.nodes[i] in grown.Repr();
    }
    exited, queue, busy := Erase(grown);
    GrowThenShrink(old(ViewOf(head)));
  }
}
