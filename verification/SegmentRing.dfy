/** The ring of Lab4/src/ring.c in shared memory: a map from segment ids to nodes that name their
    neighbours by id. */
module SegmentRing {
  import opened Options
  import opened RingQueue
  import opened SegmentQueue

  /** A `node_ring`. */
  datatype Node = Node(curr: int, next: int, prev: int, message: Message, busy: bool)

  type Memory = map<int, Node>

  ghost predicate Present(mem: Memory, order: seq<int>) {
    forall k | 0 <= k < |order| :: order[k] in mem
  }

  ghost predicate Joined(mem: Memory, order: seq<int>, i: nat)
    requires i < |order| && Present(mem, order)
  {
    mem[order[i]].next == order[Succ(i, |order|)] && mem[order[Succ(i, |order|)]].prev == order[i]
  }

  /** One cycle visits exactly the segments `order`. */
  ghost predicate Cycle(mem: Memory, order: seq<int>) {
    && (forall i, j | 0 <= i < j < |order| :: order[i] != order[j])
    && Present(mem, order)
    && (forall x | x in order :: x in mem && mem[x].curr == x)
    && (forall i | 0 <= i < |order| :: Joined(mem, order, i))
  }

  /** The first `filled` segments are busy and the others free. */
  ghost predicate BusyArc(mem: Memory, order: seq<int>, filled: nat)
    requires Present(mem, order)
  {
    filled <= |order| && forall i | 0 <= i < |order| :: mem[order[i]].busy <==> i < filled
  }

  ghost function Texts(mem: Memory, order: seq<int>, filled: nat): (r: seq<Message>)
    requires filled <= |order| && Present(mem, order)
    ensures |r| == filled && forall i | 0 <= i < filled :: r[i] == mem[order[i]].message
  {
    seq(filled, i requires 0 <= i < filled => mem[order[i]].message)
  }

  lemma RotateCycle(mem: Memory, order: seq<int>)
    requires Cycle(mem, order) && order != []
    ensures Cycle(mem, order[1..] + [order[0]])
  {
    var turned, n := order[1..] + [order[0]], |order|;
    assert forall i | 0 <= i < n :: turned[i] == order[Succ(i, n)];
    assert forall x | x in turned :: x in order;
    forall i | 0 <= i < n ensures Joined(mem, turned, i) {
      assert Joined(mem, order, Succ(i, n));
    }
  }

  /** The links do not depend on messages and flags. */
  lemma SameLinks(mem: Memory, mem': Memory, order: seq<int>)
    requires Cycle(mem, order) && mem'.Keys == mem.Keys
    requires forall x | x in mem ::
               mem'[x].curr == mem[x].curr && mem'[x].next == mem[x].next && mem'[x].prev == mem[x].prev
    ensures Cycle(mem', order)
  {
    forall i | 0 <= i < |order| ensures Joined(mem', order, i) {
      assert Joined(mem, order, i);
    }
  }

  /** Naming a new segment in the last and the first node closes the cycle again. */
  lemma InsertedLast(mem: Memory, mem': Memory, order: seq<int>, id: int)
    requires Cycle(mem, order) && order != [] && id !in order
    requires mem'.Keys == mem.Keys + {id}
    requires mem'[id].curr == id && mem'[id].next == order[0] && mem'[id].prev == order[|order| - 1]
    requires forall x | x in order :: mem'[x].curr == x
    requires forall x | x in order :: mem'[x].next == if x == order[|order| - 1] then id else mem[x].next
    requires forall x | x in order :: mem'[x].prev == if x == order[0] then id else mem[x].prev
    ensures Cycle(mem', order + [id])
  {
    var longer, n := order + [id], |order|;
    forall i | 0 <= i <= n ensures Joined(mem', longer, i) {
      if i < n - 1 {
        assert Joined(mem, order, i);
      }
    }
  }

  /** The ring after its first segment has been freed, in the order that starts at the next one. */
  lemma FirstFreed(mem: Memory, mem': Memory, order: seq<int>, filled: nat)
    requires Cycle(mem, order) && BusyArc(mem, order, filled) && filled > 0
    requires mem' == mem[order[0] := mem[order[0]].(busy := false)]
    ensures var turned := order[1..] + [order[0]];
            && Cycle(mem', turned) && BusyArc(mem', turned, filled - 1)
            && mem[order[0]].next == turned[0]
            && turned[filled - 1] == order[if filled == |order| then 0 else filled]
            && Texts(mem', turned, filled - 1) == Texts(mem, order, filled)[1..]
  {
    assert Joined(mem, order, 0);
    SameLinks(mem, mem', order);
    RotateCycle(mem', order);
    var turned := order[1..] + [order[0]];
    assert forall i | 0 <= i < |order| :: turned[i] == order[Succ(i, |order|)];
  }

  /** The byte loop of both operations. */
  method CopyMessage(to: Message, from: Message) returns (copy: Message)
    ensures copy == from
  {
    copy := to;
    for i := 0 to LEN_MESSAGE
      invariant copy[..i] == from[..i]
    {
      copy := copy[i := from[i]];
    }
  }

  /** A new free segment behind the last one leaves the messages and the busy arc as they are. */
  lemma GrownLast(mem: Memory, mem': Memory, order: seq<int>, id: int, filled: nat)
    requires Cycle(mem, order) && order != [] && BusyArc(mem, order, filled) && id !in order
    requires Cycle(mem', order + [id]) && !mem'[id].busy
    requires forall x | x in order :: x in mem' && mem'[x].busy == mem[x].busy && mem'[x].message == mem[x].message
    ensures BusyArc(mem', order + [id], filled)
    ensures Texts(mem', order + [id], filled) == Texts(mem, order, filled)
  {
    var before, after := Texts(mem, order, filled), Texts(mem', order + [id], filled);
    forall i | 0 <= i < filled ensures after[i] == before[i] {
      assert order[i] in order && (order + [id])[i] == order[i];
    }
  }

  class SharedBuffer {
    var segments: Memory
    var shmidBegin: int
    var shmidTail: int
    var produced: nat
    var consumed: nat
    ghost var order: seq<int>
    ghost var filled: nat

    ghost predicate Valid()
      reads this
    {
      && Cycle(segments, order)
      && BusyArc(segments, order, filled)
      && (order == [] ==> shmidBegin == 0)
      && (order != [] ==> shmidBegin == order[0] && shmidTail == order[if filled == |order| then 0 else filled])
    }

    ghost function View(): (s: Slots)
      requires Valid()
      reads this
      ensures s.Valid()
    {
      Slots(order, Texts(segments, order, filled))
    }

    constructor ()
      ensures Valid() && View() == Slots([], []) && segments == map[] && produced == consumed == 0
    {
      segments := map[];
      shmidBegin, shmidTail, produced, consumed := 0, 0, 0, 0;
      order, filled := [], 0;
    }

    /** The assignments of links in `append`, where the ring does not look empty. */
    method LinkLast(id: int)
      requires Cycle(segments, order) && order != [] && shmidBegin == order[0] && id !in segments
      modifies `segments
      ensures segments.Keys == old(segments.Keys) + {id} && Cycle(segments, order + [id]) && !segments[id].busy
      ensures forall x | x in old(segments) ::
                segments[x].busy == old(segments)[x].busy && segments[x].message == old(segments)[x].message
    {
      var buffer := Node(id, id, id, seq(LEN_MESSAGE, _ => 0), false);
      ghost var before := segments;
      assert Joined(before, order, 0) && Joined(before, order, |order| - 1);
      var curr := segments[shmidBegin];
      if curr.curr == curr.next {
        assert |order| == 1;
        segments := segments[id := buffer.(next := curr.curr, prev := curr.curr)];
        segments := segments[curr.curr := curr.(next := id, prev := id)];
      } else {
        var prev := segments[curr.prev];
        segments := segments[id := buffer.(next := curr.curr, prev := prev.curr)];
        segments := segments[prev.curr := prev.(next := id)];
        segments := segments[curr.curr := curr.(prev := id)];
      }
      InsertedLast(before, segments, order, id);
    }

    /** Links a new segment in behind the last one. With the id 0 as its first segment the ring looks as if it
        had none, so that the new one replaces it. On a full ring `tail` stays on a busy segment although
        the new one is free. */
    method Append(id: int)
      requires Valid() && id !in segments
      modifies this
      ensures segments.Keys == old(segments.Keys) + {id} && produced == old(produced) && consumed == old(consumed)
      ensures Valid() <==> !(old(View()).Usable() && old(View()).Full())
      ensures Valid() ==> View() == old(View()).Append(id)
      ensures !Valid() ==>
                && Cycle(segments, order) && order == old(order) + [id]
                && shmidTail == shmidBegin && shmidBegin in segments && segments[shmidBegin].busy && !segments[id].busy
    {
      if shmidBegin == 0 {
        segments := segments[id := Node(id, id, id, seq(LEN_MESSAGE, _ => 0), false)];
        shmidBegin := id;
        shmidTail := id;
        order, filled := if id == 0 then [] else [id], 0;
        assert order != [] ==> Joined(segments, order, 0);
      } else {
        ghost var before := segments;
        LinkLast(id);
        GrownLast(before, segments, order, id, filled);
        order := order + [id];
      }
    }

    /** `add_message`. */
    method AddMessage(message: Message) returns (accepted: bool)
      requires Valid()
      modifies this
      ensures Valid()
      ensures accepted <==> old(View()).Usable() && !old(View()).Full()
      ensures View() == old(View()).Put(message)
      ensures produced == old(produced) + (if accepted then 1 else 0) && consumed == old(consumed)
    {
      if shmidBegin == 0 {
        return false;
      }
      var curr := segments[shmidTail];
      if curr.busy {
        return false;
      }
      ghost var before := segments;
      assert Joined(before, order, filled);
      var copy := CopyMessage(curr.message, message);
      segments := segments[shmidTail := curr.(message := copy, busy := true)];
      SameLinks(before, segments, order);
      shmidTail := curr.next;
      produced := produced + 1;
      filled := filled + 1;
      accepted := true;
      assert View().pending == old(View()).pending + [message];
    }

    /** `extract_message`. */
    method ExtractMessage() returns (message: Option<Message>)
      requires Valid()
      modifies this
      ensures Valid()
      ensures message
              == if old(View()).Usable() && old(View()).pending != [] then Some(old(View()).pending[0]) else None
      ensures View() == old(View()).Take()
      ensures consumed == old(consumed) + (if message.Some? then 1 else 0) && produced == old(produced)
    {
      if shmidBegin == 0 {
        return None;
      }
      var curr := segments[shmidBegin];
      if !curr.busy {
        return None;
      }
      FirstFreed(segments, segments[shmidBegin := curr.(busy := false)], order, filled);
      segments := segments[shmidBegin := curr.(busy := false)];
      var copy := CopyMessage(seq(LEN_MESSAGE, _ => 0), curr.message);
      shmidBegin := curr.next;
      consumed := consumed + 1;
      order := order[1..] + [order[0]];
      filled := filled - 1;
      message := Some(copy);
    }
  }

  lemma LinkedStep(ids: seq<int>, k: nat)
    requires k < |ids| && forall i, j | 0 <= i < j < |ids| :: ids[i] != ids[j]
    ensures Slots(Linked(ids[..k + 1]), []) == Slots(Linked(ids[..k]), []).Append(ids[k])
  {
    assert ids[..k + 1] == ids[..k] + [ids[k]];
  }

  /** The ring after `append` for the first `k` of the segments `ids`. */
  ghost predicate Built(ring: SharedBuffer, ids: seq<int>, k: nat)
    requires k <= |ids|
    reads ring
  {
    && ring.Valid() && ring.produced == ring.consumed == 0
    && (forall x | x in ring.segments :: x in ids[..k])
    && ring.View() == Slots(Linked(ids[..k]), [])
  }

  method AppendNext(ring: SharedBuffer, ids: seq<int>, k: nat)
    requires k < |ids| && forall i, j | 0 <= i < j < |ids| :: ids[i] != ids[j]
    requires Built(ring, ids, k)
    modifies ring
    ensures Built(ring, ids, k + 1)
  {
    LinkedStep(ids, k);
    ghost var slots := ring.View();
    assert ids[k] !in ids[..k];
    ring.Append(ids[k]);
    assert ring.View() == slots.Append(ids[k]);
    assert ids[..k + 1] == ids[..k] + [ids[k]];
  }

  /** The loop of `main` that builds the ring: one cycle through all the segments in the order in which
      they were made, with all slots free. */
  method Build(ids: seq<int>) returns (ring: SharedBuffer)
    requires forall i, j | 0 <= i < j < |ids| :: ids[i] != ids[j]
    ensures fresh(ring) && ring.Valid() && ring.produced == ring.consumed == 0
    ensures ring.View() == Slots(Linked(ids), [])
    ensures |ring.View().order| == |ids| <==> ids == [] || ids[0] != 0
  {
    ring := new SharedBuffer();
    for k := 0 to |ids|
      invariant fresh(ring) && Built(ring, ids, k)
    {
      AppendNext(ring, ids, k);
    }
    assert ids[..|ids|] == ids;
  }
}
