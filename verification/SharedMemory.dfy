/** The semaphores and the ring of Lab4/src/main.c, and the statements of `producer` and `consumer`. */
module SharedMemory {
  import opened Options
  import opened RingQueue
  import opened SegmentRing
  import opened Workers
  import opened Turns
  import opened FixedProtocol
  import opened FixedRuns
  import opened FixedTheorems

  const BUFFER_SIZE := 6

  lemma AllPlaced(s: State, labels: seq<Label>)
    requires Run(s, labels).Some?
    ensures forall id, last | Placed(s.threads, id, last) ::
              Placed(Run(s, labels).value.threads, id, Last(labels, id, last))
  {
    forall id, last | Placed(s.threads, id, last)
      ensures Placed(Run(s, labels).value.threads, id, Last(labels, id, last))
    {
      RunPlaces(s, labels, id, last);
    }
  }

  class Globals {
    var empty: nat
    var filled: nat
    var mutex: nat
    const ring: SharedBuffer
    var threads: Threads
    ghost var produced: seq<Message>
    ghost var consumed: seq<Message>
    ghost var refusals: nat

    /** The counters in the ring count what has gone in and out. */
    ghost predicate Valid()
      reads this, ring
    {
      ring.Valid() && ring.produced == |produced| && ring.consumed == |consumed|
    }

    ghost function View(): State
      requires Valid()
      reads this, ring
    {
      State(empty, filled, mutex, ring.View(), threads, produced, consumed, refusals)
    }

    /** The start of `main`: the semaphores, and a ring of the segments that the system hands out. */
    constructor (ids: seq<int>)
      requires |ids| == BUFFER_SIZE && forall i, j | 0 <= i < j < |ids| :: ids[i] != ids[j]
      ensures Valid() && fresh(ring)
      ensures View() == Initial(ids) && (0 !in ids ==> Inv(View(), BUFFER_SIZE))
    {
      empty, filled, mutex := BUFFER_SIZE, 0, 1;
      threads := map[];
      produced, consumed, refusals := [], [], 0;
      var built := Build(ids);
      ring := built;
      new;
      if 0 !in ids {
        InitialInv(ids);
      }
    }

    method StartWorker(role: Role, id: nat)
      requires Valid() && id !in threads
      modifies this
      ensures Valid() && Some(View()) == old(Step(View(), Spawn(role, id)))
    {
      threads := threads[id := Worker(role, Wait)];
    }

    /** `add_message`, as the producer calls it. */
    method Add(message: Message)
      requires Valid()
      modifies this, ring
      ensures Valid() && View() == MoveMessage(old(View()), Producer, message)
    {
      var accepted := ring.AddMessage(message);
      if accepted {
        produced := produced + [message];
      } else {
        refusals := refusals + 1;
      }
    }

    /** `extract_message`, as the consumer calls it. */
    method Extract() returns (message: Option<Message>)
      requires Valid()
      modifies this, ring
      ensures Valid() && View() == MoveMessage(old(View()), Consumer, seq(LEN_MESSAGE, _ => 0))
      ensures var slots := old(View()).slots;
              message == if slots.Usable() && slots.pending != [] then Some(slots.pending[0]) else None
    {
      message := ring.ExtractMessage();
      if message.Some? {
        consumed := consumed + [message.value];
      } else {
        refusals := refusals + 1;
      }
    }

    /** Between the two waits and the two posts: the ring operation. */
    method UseToken(id: nat, message: Message, stop: bool)
      requires Valid() && id in threads && threads[id].at.Hold?
      modifies this, ring
      ensures Valid() && Some(View()) == old(WorkerStep(View(), id, message, stop))
    {
      if threads[id].role.Producer? {
        Add(message);
      } else {
        var extracted := Extract();
      }
      threads := threads[id := threads[id].(at := Moved)];
    }

    /** The other statements of the loop: the semaphores and the loop test. */
    method Walk(id: nat, message: Message, stop: bool)
      requires Valid() && id in threads && !threads[id].at.Hold? && WorkerStep(View(), id, message, stop).Some?
      modifies this
      ensures Valid() && Some(View()) == old(WorkerStep(View(), id, message, stop))
    {
      var producer, at := threads[id].role.Producer?, threads[id].at;
      var next := Wait;
      match at {
        case Wait =>
          if producer {
            empty := empty - 1;
          } else {
            filled := filled - 1;
          }
          next := Lock;
        case Lock =>
          mutex := mutex - 1;
          next := Hold;
        case Moved =>
          mutex := mutex + 1;
          next := Post;
        case Post =>
          if producer {
            filled := filled + 1;
          } else {
            empty := empty + 1;
          }
          next := Test;
        case Test =>
          next := if stop then Stopped else Wait;
      }
      threads := threads[id := threads[id].(at := next)];
    }

    method DoStep(l: Label)
      requires Valid() && Step(View(), l).Some?
      modifies this, ring
      ensures Valid() && Some(View()) == old(Step(View(), l))
    {
      match l
      case Spawn(role, id) => StartWorker(role, id);
      case Work(id, message, stop) =>
        if threads[id].at.Hold? {
          UseToken(id, message, stop);
        } else {
          Walk(id, message, stop);
        }
    }

    /** Any run of the processes on the ring in shared memory. It adds messages that the producers have generated. */
    method Execute(labels: seq<Label>)
      requires Valid() && Run(View(), labels).Some?
      modifies this, ring
      ensures Valid() && Some(View()) == old(Run(View(), labels))
      ensures old(Inv(View(), BUFFER_SIZE)) ==>
                && Inv(View(), BUFFER_SIZE) && refusals == 0 && consumed <= produced
                && ring.produced - ring.consumed == |ring.View().pending| <= BUFFER_SIZE
      ensures Subsequence(produced, old(produced) + Generated(Roles(old(threads)), labels))
      ensures Roles(threads) == Started(Roles(old(threads)), labels)
      ensures forall id, last | Placed(old(threads), id, last) :: Placed(threads, id, Last(labels, id, last))
      decreases |labels|
    {
      AddedAreGenerated(View(), labels);
      RolesStay(View(), labels);
      AllPlaced(View(), labels);
      if labels != [] {
        if Inv(View(), BUFFER_SIZE) {
          StepKeeps(View(), BUFFER_SIZE, labels[0]);
        }
        DoStep(labels[0]);
        Execute(labels[1..]);
      }
    }
  }
}
