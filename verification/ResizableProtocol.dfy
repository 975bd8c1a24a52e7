/** Lab5/src/main.c: producers and consumers around a ring whose capacity main changes while they run.
    A semaphore cannot be taken down by '-', so the program counts passes: tokens that are still about
    but no longer stand for a slot or a message, to be swallowed by whoever comes next. */
module ResizableProtocol {
  import opened Options
  import opened RingQueue
  import opened Workers

  const BUFFER_SIZE := 2

  datatype Holder = MainThread | WorkerThread(id: nat)

  /** Where main is: at the prompt, or somewhere in '+' or '-'; `busy` is what `erase` returned. */
  datatype MainAt =
    | Ready
    | PlusLocked | PlusAppended | PlusPosted
    | MinusLocked | MinusErased(busy: bool) | MinusNoted
    | Exited

  /** How a message left the ring. */
  datatype Removal = Consumed(message: Message) | Dropped(message: Message)

  /** The globals, the program counters, and the history of the ring. */
  datatype State = State(
    empty: nat,
    filled: nat,
    mutex: Option<Holder>,
    producerPasses: nat,
    consumerPasses: nat,
    queue: Queue,
    threads: Threads,
    main: MainAt,
    added: seq<Message>,
    removed: seq<Removal>,
    refusals: nat)

  /** What happens next: main starts a worker, a '+' or a '-', or goes on with it; or worker `id` goes on,
      where `message` is what a producer has generated and `stop` what the loop test finds. */
  datatype Label =
    | Spawn(role: Role, id: nat)
    | Press(plus: bool)
    | Main
    | Work(id: nat, message: Message, stop: bool)

  function Initial(): State {
    State(BUFFER_SIZE, 0, None, 0, 0, Queue(BUFFER_SIZE, []), map[], Ready, [], [], 0)
  }

  function Move(s: State, id: nat, at: Point): State
    requires id in s.threads
  {
    s.(threads := s.threads[id := s.threads[id].(at := at)])
  }

  function Passes(s: State, role: Role): nat {
    if role.Producer? then s.producerPasses else s.consumerPasses
  }

  function Tokens(s: State, role: Role): nat {
    if role.Producer? then s.empty else s.filled
  }

  /** `erase`, and main's note of what it did to the messages. */
  function Erased(s: State): State
    requires s.queue.capacity > 0
  {
    var busy := s.queue.Full();
    s.(queue := s.queue.Shrink(), main := MinusErased(busy),
       removed := if busy && s.queue.pending != [] then s.removed + [Dropped(s.queue.pending[0])] else s.removed)
  }

  function MainStep(s: State): Option<State> {
    match s.main
    case PlusLocked => Some(s.(queue := s.queue.Grow(), main := PlusAppended))
    case PlusAppended => Some(s.(empty := s.empty + 1, main := PlusPosted))
    case PlusPosted => Some(s.(mutex := None, main := Ready))
    case MinusLocked => if s.queue.capacity == 0 then Some(s.(main := Exited)) else Some(Erased(s))
    case MinusErased(busy) =>
      if busy then Some(s.(consumerPasses := s.consumerPasses + 1, main := MinusNoted))
      else Some(s.(producerPasses := s.producerPasses + 1, main := MinusNoted))
    case MinusNoted => Some(s.(mutex := None, main := Ready))
    case _ => None
  }

  /** `add_message` and `extract_message`; when the ring refuses, the program goes on all the same. */
  function MoveMessage(s: State, role: Role, message: Message): State {
    match role
    case Producer =>
      if s.queue.Full() then s.(refusals := s.refusals + 1)
      else s.(queue := s.queue.Put(message), added := s.added + [message])
    case Consumer =>
      if s.queue.pending == [] then s.(refusals := s.refusals + 1)
      else s.(queue := s.queue.Take(), removed := s.removed + [Consumed(s.queue.pending[0])])
  }

  /** Under the mutex: a pass is used up if there is one, else a message is moved. */
  function UseToken(s: State, id: nat, message: Message): State
    requires id in s.threads
  {
    var role := s.threads[id].role;
    if Passes(s, role) != 0 then
      Move(if role.Producer? then s.(producerPasses := s.producerPasses - 1)
           else s.(consumerPasses := s.consumerPasses - 1), id, Paid)
    else Move(MoveMessage(s, role, message), id, Moved)
  }

  function WorkerStep(s: State, id: nat, message: Message, stop: bool): Option<State>
    requires id in s.threads
  {
    var role := s.threads[id].role;
    match s.threads[id].at
    case Wait =>
      if Tokens(s, role) == 0 then None
      else Some(Move(if role.Producer? then s.(empty := s.empty - 1) else s.(filled := s.filled - 1), id, Lock))
    case Lock => if s.mutex.Some? then None else Some(Move(s.(mutex := Some(WorkerThread(id))), id, Hold))
    case Hold => Some(UseToken(s, id, message))
    case Paid => Some(Move(s.(mutex := None), id, Test))
    case Moved => Some(Move(s.(mutex := None), id, Post))
    case Post => Some(Move(if role.Producer? then s.(filled := s.filled + 1) else s.(empty := s.empty + 1), id, Test))
    case Test => Some(Move(s, id, if stop then Stopped else Wait))
    case Stopped => None
  }

  /** One step, or None when it cannot happen now. After main has exited nothing happens. */
  function Step(s: State, l: Label): Option<State> {
    if s.main.Exited? then None
    else
      match l
      case Spawn(role, id) =>
        if s.main.Ready? && id !in s.threads then Some(s.(threads := s.threads[id := Worker(role, Wait)])) else None
      case Press(plus) =>
        if s.main.Ready? && s.mutex.None?
        then Some(s.(mutex := Some(MainThread), main := if plus then PlusLocked else MinusLocked))
        else None
      case Main => MainStep(s)
      case Work(id, message, stop) => if id in s.threads then WorkerStep(s, id, message, stop) else None
  }

  function Run(s: State, labels: seq<Label>): Option<State>
    decreases |labels|
  {
    if labels == [] then Some(s)
    else
      var next := Step(s, labels[0]);
      if next.Some? then Run(next.value, labels[1..]) else None
  }
}
