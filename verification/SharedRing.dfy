/** The globals of Lab5/src/main.c and the statements of `main`, `producer` and `consumer` that change
    them, on the linked ring. Each method is one step of the protocol. */
module SharedRing {
  import opened Options
  import opened RingQueue
  import opened Ring
  import opened Workers
  import opened ResizableProtocol
  import opened ResizableSafety
  import opened ResizableRuns
  import opened ResizableTheorems
  import T = Turns

  /** The loop in `main` that appends `BUFFER_SIZE` slots before any worker runs. */
  method InitialRing() returns (queue: RingBuffer?)
    ensures queue != null && queue.Valid() && fresh(queue.Repr()) && ViewOf(queue) == Queue(BUFFER_SIZE, [])
  {
    queue := null;
    for i := 0 to BUFFER_SIZE
      invariant i > 0 <==> queue != null
      invariant queue != null ==> queue.Valid() && fresh(queue.Repr())
      invariant ViewOf(queue) == Queue(i, [])
    {
      if queue != null {
        assert queue in queue.Repr();
        forall i | 0 <= i < |queue.nodes| ensures fresh(queue.nodes[i]) {
          assert queue.nodes[i] in queue.nodes && queue.nodes[i] in queue.Repr();
        }
      }
      queue := Append(queue, false);
    }
  }

  lemma AllPlaced(s: State, labels: seq<Label>)
    requires Run(s, labels).Some?
    ensures forall id, last | T.Placed(s.threads, id, last) ::
              T.Placed(Run(s, labels).value.threads, id, T.Last(Events(labels), id, last))
  {
    forall id, last | T.Placed(s.threads, id, last)
      ensures T.Placed(Run(s, labels).value.threads, id, T.Last(Events(labels), id, last))
    {
      RunPlaces(s, labels, id, last);
    }
  }

  class Globals {
    var empty: nat
    var filled: nat
    var mutex: Option<Holder>
    var producerPasses: nat
    var consumerPasses: nat
    var queue: RingBuffer?
    var threads: Threads
    var main: MainAt
    ghost var added: seq<Message>
    ghost var removed: seq<Removal>
    ghost var refusals: nat

    ghost function Footprint(): set<object>
      reads this, queue
    {
      {this as object} + if queue == null then {} else queue.Repr()
    }

    ghost predicate Valid()
      reads this, queue, if queue == null then [] else queue.nodes
    {
      queue != null ==> queue.Valid()
    }

    ghost function View(): State
      requires Valid()
      reads this, queue, if queue == null then [] else queue.nodes, if queue == null then {} else Buffers(queue.nodes)
    {
      State(empty, filled, mutex, producerPasses, consumerPasses, ViewOf(queue), threads, main,
            added, removed, refusals)
    }

    /** The start of `main`: the semaphores, and a ring of `BUFFER_SIZE` slots. */
    constructor ()
      ensures Valid() && fresh(Footprint()) && View() == Initial()
    {
      empty, filled, mutex := BUFFER_SIZE, 0, None;
      producerPasses, consumerPasses := 0, 0;
      queue, threads, main := null, map[], Ready;
      added, removed, refusals := [], [], 0;
      new;
      queue := InitialRing();
    }

    method StartWorker(role: Role, id: nat)
      requires Valid() && Step(View(), Spawn(role, id)).Some?
      modifies this
      ensures Valid() && queue == old(queue) && Some(View()) == old(Step(View(), Spawn(role, id)))
    {
      threads := threads[id := Worker(role, Wait)];
      assert ViewOf(queue) == old(ViewOf(queue));
    }

    // ---- '+' and '-'.

    method LockMain(plus: bool)
      requires Valid() && Step(View(), Press(plus)).Some?
      modifies this
      ensures Valid() && queue == old(queue) && Some(View()) == old(Step(View(), Press(plus)))
    {
      mutex := Some(MainThread);
      main := if plus then PlusLocked else MinusLocked;
      assert ViewOf(queue) == old(ViewOf(queue));
    }

    /** Main goes on to its next statement; the ring is as it was. */
    method SetMain(at: MainAt)
      requires Valid()
      modifies `main
      ensures Valid() && Footprint() == old(Footprint()) && View() == old(View()).(main := at)
    {
      main := at;
      assert ViewOf(queue) == old(ViewOf(queue));
    }

    /** `append(&queue, true)`. */
    method AppendSlot()
      requires Valid() && main.PlusLocked?
      modifies Footprint()
      ensures Valid() && fresh(Footprint() - old(Footprint())) && Some(View()) == old(MainStep(View()))
    {
      queue := Append(queue, true);
      assert View() == old(View()).(queue := old(View()).queue.Grow());
      SetMain(PlusAppended);
    }

    /** What '-' notes after `erase`: the flag, and in the history, a dropped message. */
    method NoteErased(busy: bool, ghost before: State)
      requires Valid() && before.queue.capacity > 0 && busy == before.queue.Full()
      requires View() == before.(queue := before.queue.Shrink())
      modifies `removed, `main
      ensures Valid() && Footprint() == old(Footprint()) && View() == Erased(before)
    {
      if busy && before.queue.pending != [] {
        removed := removed + [Dropped(before.queue.pending[0])];
      }
      main := MinusErased(busy);
      assert ViewOf(queue) == old(ViewOf(queue));
    }

    /** `erase`, which exits when there is no ring. */
    method EraseSlot()
      requires Valid() && main.MinusLocked?
      modifies Footprint()
      ensures Valid() && fresh(Footprint() - old(Footprint())) && Some(View()) == old(MainStep(View()))
    {
      ghost var before := View();
      var exited, rest, busy := Erase(queue);
      if exited {
        SetMain(Exited);
      } else {
        queue := rest;
        NoteErased(busy, before);
      }
    }

    /** `sem_post(SEMAPHORE_EMPTY)` of '+'. */
    method PostSlot()
      requires Valid() && main.PlusAppended?
      modifies this
      ensures Valid() && queue == old(queue) && Some(View()) == old(MainStep(View()))
    {
      empty := empty + 1;
      main := PlusPosted;
      assert ViewOf(queue) == old(ViewOf(queue));
    }

    /** The pass of '-'. */
    method NotePass()
      requires Valid() && main.MinusErased?
      modifies this
      ensures Valid() && queue == old(queue) && Some(View()) == old(MainStep(View()))
    {
      if !main.busy {
        producerPasses := producerPasses + 1;
      }
      if main.busy {
        consumerPasses := consumerPasses + 1;
      }
      main := MinusNoted;
      assert ViewOf(queue) == old(ViewOf(queue));
    }

    method UnlockMain()
      requires Valid() && (main.PlusPosted? || main.MinusNoted?)
      modifies this
      ensures Valid() && queue == old(queue) && Some(View()) == old(MainStep(View()))
    {
      mutex := None;
      main := Ready;
      assert ViewOf(queue) == old(ViewOf(queue));
    }

    /** The statements of '+' and '-' around the ring operation. */
    method ContinueMain()
      requires Valid() && MainStep(View()).Some? && !main.PlusLocked? && !main.MinusLocked?
      modifies this
      ensures Valid() && queue == old(queue) && Some(View()) == old(MainStep(View()))
    {
      if main.PlusAppended? {
        PostSlot();
      } else if main.MinusErased? {
        NotePass();
      } else {
        UnlockMain();
      }
    }

    // ---- `producer` and `consumer`.

    ghost method NoteAdded(message: Message)
      requires Valid()
      modifies `added
      ensures Valid() && Footprint() == old(Footprint()) && View() == old(View()).(added := old(added) + [message])
    {
      added := added + [message];
      assert ViewOf(queue) == old(ViewOf(queue));
    }

    ghost method NoteConsumed(message: Message)
      requires Valid()
      modifies `removed
      ensures Valid() && Footprint() == old(Footprint())
      ensures View() == old(View()).(removed := old(removed) + [Consumed(message)])
    {
      removed := removed + [Consumed(message)];
      assert ViewOf(queue) == old(ViewOf(queue));
    }

    ghost method NoteRefusal()
      requires Valid()
      modifies `refusals
      ensures Valid() && Footprint() == old(Footprint()) && View() == old(View()).(refusals := old(refusals) + 1)
    {
      refusals := refusals + 1;
      assert ViewOf(queue) == old(ViewOf(queue));
    }

    /** `add_message(queue, new_message)`, as the producer calls it. */
    method Add(message: Message)
      requires Valid()
      modifies Footprint()
      ensures Valid() && Footprint() == old(Footprint()) && View() == MoveMessage(old(View()), Producer, message)
    {
      var accepted := false;
      if queue != null {
        accepted := queue.AddMessage(message);
      }
      assert ViewOf(queue) == old(View()).queue.Put(message);
      if accepted {
        NoteAdded(message);
      } else {
        NoteRefusal();
      }
    }

    /** `extract_message(queue)`, as the consumer calls it. */
    method Extract() returns (message: Option<Message>)
      requires Valid()
      modifies Footprint()
      ensures Valid() && Footprint() == old(Footprint())
      ensures View() == MoveMessage(old(View()), Consumer, seq(LEN_MESSAGE, _ => 0))
      ensures message == if old(View()).queue.pending == [] then None else Some(old(View()).queue.pending[0])
    {
      message := None;
      if queue != null {
        message := queue.ExtractMessage();
      }
      assert ViewOf(queue) == old(View()).queue.Take();
      if message.Some? {
        NoteConsumed(message.value);
      } else {
        NoteRefusal();
      }
    }

    method UsePass(id: nat)
      requires Valid() && id in threads && threads[id].at.Hold? && Passes(View(), threads[id].role) != 0
      modifies this
      ensures Valid() && queue == old(queue) && View() == UseToken(old(View()), id, seq(LEN_MESSAGE, _ => 0))
    {
      if threads[id].role.Producer? {
        producerPasses := producerPasses - 1;
      } else {
        consumerPasses := consumerPasses - 1;
      }
      threads := threads[id := threads[id].(at := Paid)];
      assert ViewOf(queue) == old(ViewOf(queue));
    }

    /** A worker goes on after its ring operation. */
    method NoteMoved(id: nat)
      requires Valid() && id in threads
      modifies `threads
      ensures Valid() && Footprint() == old(Footprint()) && View() == Move(old(View()), id, Moved)
    {
      threads := threads[id := threads[id].(at := Moved)];
      assert ViewOf(queue) == old(ViewOf(queue));
    }

    /** Under the mutex: the test of the passes, and the ring operation. */
    method UseTheToken(id: nat, message: Message)
      requires Valid() && id in threads && threads[id].at.Hold?
      modifies Footprint()
      ensures Valid() && Footprint() == old(Footprint()) && View() == UseToken(old(View()), id, message)
    {
      var producer := threads[id].role.Producer?;
      if producer && producerPasses != 0 {
        UsePass(id);
      } else if producer {
        Add(message);
        NoteMoved(id);
      } else if consumerPasses != 0 {
        UsePass(id);
      } else {
        var extracted := Extract();
        NoteMoved(id);
      }
    }

    method SemWait(id: nat)
      requires Valid() && id in threads && threads[id].at.Wait? && Tokens(View(), threads[id].role) > 0
      modifies this
      ensures Valid() && queue == old(queue)
      ensures Some(View()) == old(WorkerStep(View(), id, seq(LEN_MESSAGE, _ => 0), false))
    {
      if threads[id].role.Producer? {
        empty := empty - 1;
      } else {
        filled := filled - 1;
      }
      threads := threads[id := threads[id].(at := Lock)];
      assert ViewOf(queue) == old(ViewOf(queue));
    }

    method SemPost(id: nat)
      requires Valid() && id in threads && threads[id].at.Post?
      modifies this
      ensures Valid() && queue == old(queue)
      ensures Some(View()) == old(WorkerStep(View(), id, seq(LEN_MESSAGE, _ => 0), false))
    {
      if threads[id].role.Producer? {
        filled := filled + 1;
      } else {
        empty := empty + 1;
      }
      threads := threads[id := threads[id].(at := Test)];
      assert ViewOf(queue) == old(ViewOf(queue));
    }

    /** The mutex is taken, or released on either way out of the critical section. */
    method ChangeMutex(id: nat)
      requires Valid() && id in threads
      requires (threads[id].at.Lock? && mutex.None?) || threads[id].at.Paid? || threads[id].at.Moved?
      modifies this
      ensures Valid() && queue == old(queue)
      ensures Some(View()) == old(WorkerStep(View(), id, seq(LEN_MESSAGE, _ => 0), false))
    {
      var at := threads[id].at;
      mutex := if at.Lock? then Some(WorkerThread(id)) else None;
      threads := threads[id := threads[id].(at := if at.Lock? then Hold else if at.Paid? then Test else Post)];
      assert ViewOf(queue) == old(ViewOf(queue));
    }

    method TestLoop(id: nat, stop: bool)
      requires Valid() && id in threads && threads[id].at.Test?
      modifies this
      ensures Valid() && queue == old(queue)
      ensures Some(View()) == old(WorkerStep(View(), id, seq(LEN_MESSAGE, _ => 0), stop))
    {
      threads := threads[id := threads[id].(at := if stop then Stopped else Wait)];
      assert ViewOf(queue) == old(ViewOf(queue));
    }

    method DoWork(id: nat, message: Message, stop: bool)
      requires Valid() && id in threads && WorkerStep(View(), id, message, stop).Some?
      modifies Footprint()
      ensures Valid() && Footprint() == old(Footprint())
      ensures Some(View()) == old(WorkerStep(View(), id, message, stop))
    {
      match threads[id].at
      case Wait => SemWait(id);
      case Hold => UseTheToken(id, message);
      case Post => SemPost(id);
      case Test => TestLoop(id, stop);
      case Lock => ChangeMutex(id);
      case Paid => ChangeMutex(id);
      case Moved => ChangeMutex(id);
    }

    // ---- Whole runs.

    method DoStep(l: Label)
      requires Valid() && Step(View(), l).Some?
      modifies Footprint()
      ensures Valid() && fresh(Footprint() - old(Footprint())) && Some(View()) == old(Step(View(), l))
    {
      match l
      case Spawn(role, id) => StartWorker(role, id);
      case Press(plus) => LockMain(plus);
      case Main =>
        if main.PlusLocked? {
          AppendSlot();
        } else if main.MinusLocked? {
          EraseSlot();
        } else {
          ContinueMain();
        }
      case Work(id, message, stop) => DoWork(id, message, stop);
    }

    /** Any run of the program on the linked ring keeps tokens, slots and messages in agreement. It adds messages that
        the producers have generated, and slots as the keys say; and workers are where their loop tests send them. */
    method Execute(labels: seq<Label>)
      requires Valid() && Inv(View()) && Run(View(), labels).Some?
      modifies Footprint()
      ensures Valid() && Some(View()) == old(Run(View(), labels))
      ensures Inv(View()) && refusals == 0
      ensures Subsequence(ConsumedOf(removed), added)
      ensures Subsequence(added, old(added) + T.Generated(T.Roles(old(threads)), Events(labels)))
      ensures ViewOf(queue).capacity + Outstanding(main)
              == old(ViewOf(queue).capacity + Outstanding(main)) + Keys(labels, true) - Keys(labels, false)
      ensures T.Roles(threads) == T.Started(T.Roles(old(threads)), Events(labels))
      ensures forall id, last | T.Placed(old(threads), id, last) ::
                T.Placed(threads, id, T.Last(Events(labels), id, last))
      decreases |labels|
    {
      AddedAreGenerated(View(), labels);
      CapacityByKeys(View(), labels);
      RolesStay(View(), labels);
      AllPlaced(View(), labels);
      if labels == [] {
        ConsumedAsProduced(View());
      } else {
        StepKeeps(View(), labels[0]);
        DoStep(labels[0]);
        Execute(labels[1..]);
      }
    }
  }
}
