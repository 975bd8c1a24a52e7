/** Lab4/src/main.c: any number of producer and consumer processes around a ring of fixed capacity, with
    one semaphore for empty slots, one for filled ones and one as a mutex. */
module FixedProtocol {
  import opened Options
  import opened RingQueue
  import opened SegmentQueue
  import opened Workers
  import opened Turns

  /** The semaphores, the ring, where the processes are, and what has been added and extracted so far. */
  datatype State = State(
    empty: nat,
    filled: nat,
    mutex: nat,
    slots: Slots,
    threads: Threads,
    produced: seq<Message>,
    consumed: seq<Message>,
    refusals: nat)

  /** Main only starts processes. */
  type Label = Event

  /** A ring built from the segments `ids`, and an empty token for each of them. */
  function Initial(ids: seq<int>): State {
    State(|ids|, 0, 1, Slots(Linked(ids), []), map[], [], [], 0)
  }

  function Move(s: State, id: nat, at: Point): State
    requires id in s.threads
  {
    s.(threads := s.threads[id := s.threads[id].(at := at)])
  }

  /** `add_message` or `extract_message`. When the ring refuses, the program goes on to the posts; that a consumer
      then hands the null result to `display_message` is left out. */
  function MoveMessage(s: State, role: Role, message: Message): State {
    match role
    case Producer =>
      if s.slots.Usable() && !s.slots.Full()
      then s.(slots := s.slots.Put(message), produced := s.produced + [message])
      else s.(refusals := s.refusals + 1)
    case Consumer =>
      if s.slots.Usable() && s.slots.pending != []
      then s.(slots := s.slots.Take(), consumed := s.consumed + [s.slots.pending[0]])
      else s.(refusals := s.refusals + 1)
  }

  function Tokens(s: State, role: Role): nat {
    if role.Producer? then s.empty else s.filled
  }

  function WorkerStep(s: State, id: nat, message: Message, stop: bool): Option<State>
    requires id in s.threads
  {
    var role := s.threads[id].role;
    match s.threads[id].at
    case Wait =>
      if Tokens(s, role) == 0 then None
      else Some(Move(if role.Producer? then s.(empty := s.empty - 1) else s.(filled := s.filled - 1), id, Lock))
    case Lock => if s.mutex == 0 then None else Some(Move(s.(mutex := s.mutex - 1), id, Hold))
    case Hold => Some(Move(MoveMessage(s, role, message), id, Moved))
    case Moved => Some(Move(s.(mutex := s.mutex + 1), id, Post))
    case Post => Some(Move(if role.Producer? then s.(filled := s.filled + 1) else s.(empty := s.empty + 1), id, Test))
    case Test => Some(Move(s, id, if stop then Stopped else Wait))
    case _ => None
  }

  function Step(s: State, l: Label): Option<State> {
    match l
    case Spawn(role, id) => if id in s.threads then None else Some(s.(threads := s.threads[id := Worker(role, Wait)]))
    case Work(id, message, stop) => if id in s.threads then WorkerStep(s, id, message, stop) else None
  }

  function Run(s: State, labels: seq<Label>): Option<State>
    decreases |labels|
  {
    if labels == [] then Some(s)
    else
      var next := Step(s, labels[0]);
      if next.Some? then Run(next.value, labels[1..]) else None
  }
}
