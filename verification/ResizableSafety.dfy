/** The debt scheme of Lab5 keeps tokens, slots and messages in exact agreement, in every reachable state. */
module ResizableSafety {
  import opened Options
  import opened RingQueue
  import opened Workers
  import opened ResizableProtocol

  ghost function Holding(s: State, role: Role): nat {
    Count(s.threads, w => HasToken(w, role))
  }

  ghost function Owing(s: State, role: Role): nat {
    Count(s.threads, w => OwesToken(w, role))
  }

  /** Empty tokens, those on the way included, are the free slots plus the debt of the producers. */
  ghost predicate EmptyAgrees(s: State) {
    s.empty + Holding(s, Producer) + Owing(s, Consumer) + One(s.main.PlusAppended?)
    == s.queue.Free() + s.producerPasses + One(s.main == MinusErased(false))
  }

  /** Filled tokens, those on the way included, are the busy slots plus the debt of the consumers. */
  ghost predicate FilledAgrees(s: State) {
    s.filled + Holding(s, Consumer) + Owing(s, Producer)
    == |s.queue.pending| + s.consumerPasses + One(s.main == MinusErased(true))
  }

  predicate MutexHeld(s: State) {
    && (s.mutex == Some(MainThread) <==> !s.main.Ready?)
    && (s.mutex.Some? && s.mutex.value.WorkerThread? ==> s.mutex.value.id in s.threads)
    && (forall t | t in s.threads :: Inside(s.threads[t]) <==> s.mutex == Some(WorkerThread(t)))
  }

  function Messages(removed: seq<Removal>): seq<Message> {
    if removed == [] then [] else Messages(removed[..|removed| - 1]) + [removed[|removed| - 1].message]
  }

  /** First in, first out: what was added is what was removed followed by what is pending. */
  predicate Fifo(s: State) {
    s.added == Messages(s.removed) + s.queue.pending
  }

  ghost predicate Inv(s: State) {
    s.queue.Valid() && EmptyAgrees(s) && FilledAgrees(s) && MutexHeld(s) && Fifo(s) && s.refusals == 0
  }

  lemma InitialInv()
    ensures Inv(Initial())
  {
    CountZero(map[], w => HasToken(w, Producer));
    CountZero(map[], w => OwesToken(w, Consumer));
    CountZero(map[], w => HasToken(w, Consumer));
    CountZero(map[], w => OwesToken(w, Producer));
  }

  /** How the counts move with one worker. */
  lemma RoleCounts(s: State, id: nat, w: Worker, s': State, role: Role)
    requires s'.threads == s.threads[id := w]
    ensures Holding(s', role)
            == Holding(s, role) - One(id in s.threads && HasToken(s.threads[id], role)) + One(HasToken(w, role))
    ensures Owing(s', role)
            == Owing(s, role) - One(id in s.threads && OwesToken(s.threads[id], role)) + One(OwesToken(w, role))
  {
    CountUpdate(s.threads, w => HasToken(w, role), id, w);
    CountUpdate(s.threads, w => OwesToken(w, role), id, w);
  }

  lemma Counts(s: State, id: nat, w: Worker, s': State)
    requires s'.threads == s.threads[id := w]
    ensures var was := if id in s.threads then s.threads[id] else Worker(w.role, Stopped);
            && Holding(s', Producer) == Holding(s, Producer) - One(HasToken(was, Producer)) + One(HasToken(w, Producer))
            && Holding(s', Consumer) == Holding(s, Consumer) - One(HasToken(was, Consumer)) + One(HasToken(w, Consumer))
            && Owing(s', Producer) == Owing(s, Producer) - One(OwesToken(was, Producer)) + One(OwesToken(w, Producer))
            && Owing(s', Consumer) == Owing(s, Consumer) - One(OwesToken(was, Consumer)) + One(OwesToken(w, Consumer))
  {
    RoleCounts(s, id, w, s', Producer);
    RoleCounts(s, id, w, s', Consumer);
  }

  /** A worker with a token that is not owed as a debt finds what the token stands for. */
  lemma TokenIsGood(s: State, id: nat)
    requires Inv(s) && id in s.threads && s.threads[id].at.Hold? && Passes(s, s.threads[id].role) == 0
    ensures s.threads[id].role.Producer? ==> s.queue.capacity > 0 && !s.queue.Full()
    ensures s.threads[id].role.Consumer? ==> s.queue.capacity > 0 && s.queue.pending != []
  {
    var role := s.threads[id].role;
    CountPositive(s.threads, w => HasToken(w, role), id);
    assert Holding(s, role) > 0;
    assert s.mutex == Some(WorkerThread(id));
  }

  lemma MessagesAppend(removed: seq<Removal>, r: Removal)
    ensures Messages(removed + [r]) == Messages(removed) + [r.message]
  {
    assert (removed + [r])[..|removed|] == removed;
  }

  /** Taking the oldest message out moves it from the pending ones to the removed ones. */
  lemma FifoTake(added: seq<Message>, removed: seq<Removal>, pending: seq<Message>, r: Removal)
    requires added == Messages(removed) + pending && pending != [] && r.message == pending[0]
    ensures added == Messages(removed + [r]) + pending[1..]
  {
    MessagesAppend(removed, r);
    assert pending == [pending[0]] + pending[1..];
  }

  lemma FifoPut(added: seq<Message>, removed: seq<Message>, pending: seq<Message>, m: Message)
    requires added == removed + pending
    ensures added + [m] == removed + (pending + [m])
  {
  }

  lemma ErasedFifo(s: State)
    requires s.queue.Valid() && Fifo(s) && s.queue.capacity > 0
    ensures Erased(s).queue.Valid() && Fifo(Erased(s))
  {
    if s.queue.Full() {
      FifoTake(s.added, s.removed, s.queue.pending, Dropped(s.queue.pending[0]));
    }
  }

  lemma MainFifo(s: State)
    requires s.queue.Valid() && Fifo(s) && MainStep(s).Some?
    ensures MainStep(s).value.queue.Valid() && Fifo(MainStep(s).value)
  {
    var s' := MainStep(s).value;
    if s.main.MinusLocked? && s.queue.capacity > 0 {
      ErasedFifo(s);
    } else {
      assert s'.added == s.added && s'.removed == s.removed && s'.queue.pending == s.queue.pending;
    }
  }

  lemma MainAgrees(s: State)
    requires s.queue.Valid() && EmptyAgrees(s) && FilledAgrees(s) && MainStep(s).Some?
    ensures EmptyAgrees(MainStep(s).value) && FilledAgrees(MainStep(s).value)
  {
    var s' := MainStep(s).value;
    assert s'.threads == s.threads;
    assert forall role: Role :: Holding(s', role) == Holding(s, role) && Owing(s', role) == Owing(s, role);
  }

  lemma MainMutex(s: State)
    requires MutexHeld(s) && MainStep(s).Some?
    ensures MutexHeld(MainStep(s).value)
  {
  }

  lemma MainKeeps(s: State)
    requires Inv(s) && MainStep(s).Some?
    ensures Inv(MainStep(s).value)
  {
    MainFifo(s);
    MainAgrees(s);
    MainMutex(s);
  }

  lemma MoveFifo(s: State, role: Role, message: Message)
    requires s.queue.Valid() && Fifo(s)
    ensures MoveMessage(s, role, message).queue.Valid() && Fifo(MoveMessage(s, role, message))
  {
    if role.Consumer? && s.queue.pending != [] {
      FifoTake(s.added, s.removed, s.queue.pending, Consumed(s.queue.pending[0]));
    }
    if role.Producer? && !s.queue.Full() {
      FifoPut(s.added, Messages(s.removed), s.queue.pending, message);
    }
  }

  lemma UseTokenAgrees(s: State, id: nat, message: Message)
    requires Inv(s) && id in s.threads && s.threads[id].at.Hold?
    ensures EmptyAgrees(UseToken(s, id, message)) && FilledAgrees(UseToken(s, id, message))
    ensures UseToken(s, id, message).refusals == 0
  {
    var s' := UseToken(s, id, message);
    Counts(s, id, s'.threads[id], s');
    if Passes(s, s.threads[id].role) == 0 {
      TokenIsGood(s, id);
    }
  }

  lemma UseTokenMutex(s: State, id: nat, message: Message)
    requires MutexHeld(s) && id in s.threads && s.threads[id].at.Hold?
    ensures MutexHeld(UseToken(s, id, message))
  {
  }

  lemma UseTokenKeeps(s: State, id: nat, message: Message)
    requires Inv(s) && id in s.threads && s.threads[id].at.Hold?
    ensures Inv(UseToken(s, id, message))
  {
    MoveFifo(s, s.threads[id].role, message);
    UseTokenAgrees(s, id, message);
    UseTokenMutex(s, id, message);
  }

  /** A token that is taken from its semaphore is on its way. */
  lemma WaitAgrees(s: State, id: nat, message: Message, stop: bool)
    requires EmptyAgrees(s) && FilledAgrees(s)
    requires id in s.threads && s.threads[id].at.Wait? && WorkerStep(s, id, message, stop).Some?
    ensures var s' := WorkerStep(s, id, message, stop).value; EmptyAgrees(s') && FilledAgrees(s')
  {
    var s' := WorkerStep(s, id, message, stop).value;
    Counts(s, id, s'.threads[id], s');
  }

  /** A token that is posted is no longer owed. */
  lemma PostAgrees(s: State, id: nat, message: Message, stop: bool)
    requires EmptyAgrees(s) && FilledAgrees(s) && id in s.threads && s.threads[id].at.Post?
    ensures var s' := WorkerStep(s, id, message, stop).value; EmptyAgrees(s') && FilledAgrees(s')
  {
    var s' := WorkerStep(s, id, message, stop).value;
    Counts(s, id, s'.threads[id], s');
  }

  lemma CarrySame(s: State, id: nat, message: Message, stop: bool)
    requires id in s.threads && !s.threads[id].at.Hold? && !s.threads[id].at.Wait? && !s.threads[id].at.Post?
    requires WorkerStep(s, id, message, stop).Some?
    ensures var s' := WorkerStep(s, id, message, stop).value;
            && id in s'.threads && s'.threads == s.threads[id := s'.threads[id]]
            && s'.empty == s.empty && s'.filled == s.filled && s'.queue == s.queue && s'.main == s.main
            && s'.producerPasses == s.producerPasses && s'.consumerPasses == s.consumerPasses
            && (forall role: Role :: HasToken(s'.threads[id], role) == HasToken(s.threads[id], role)
                                  && OwesToken(s'.threads[id], role) == OwesToken(s.threads[id], role))
  {
  }

  /** The other steps carry tokens along. */
  lemma CarryAgrees(s: State, id: nat, message: Message, stop: bool)
    requires EmptyAgrees(s) && FilledAgrees(s)
    requires id in s.threads && !s.threads[id].at.Hold? && !s.threads[id].at.Wait? && !s.threads[id].at.Post?
    requires WorkerStep(s, id, message, stop).Some?
    ensures var s' := WorkerStep(s, id, message, stop).value; EmptyAgrees(s') && FilledAgrees(s')
  {
    var s' := WorkerStep(s, id, message, stop).value;
    CarrySame(s, id, message, stop);
    Counts(s, id, s'.threads[id], s');
  }

  /** The steps that take, carry and post tokens. */
  lemma WalkAgrees(s: State, id: nat, message: Message, stop: bool)
    requires EmptyAgrees(s) && FilledAgrees(s)
    requires id in s.threads && !s.threads[id].at.Hold? && WorkerStep(s, id, message, stop).Some?
    ensures var s' := WorkerStep(s, id, message, stop).value; EmptyAgrees(s') && FilledAgrees(s')
  {
    if s.threads[id].at.Wait? {
      WaitAgrees(s, id, message, stop);
    } else if s.threads[id].at.Post? {
      PostAgrees(s, id, message, stop);
    } else {
      CarryAgrees(s, id, message, stop);
    }
  }

  lemma WalkMutex(s: State, id: nat, message: Message, stop: bool)
    requires MutexHeld(s)
    requires id in s.threads && !s.threads[id].at.Hold? && WorkerStep(s, id, message, stop).Some?
    ensures MutexHeld(WorkerStep(s, id, message, stop).value)
  {
  }

  lemma WalkLeavesRing(s: State, id: nat, message: Message, stop: bool)
    requires id in s.threads && !s.threads[id].at.Hold? && WorkerStep(s, id, message, stop).Some?
    ensures var s' := WorkerStep(s, id, message, stop).value;
            s'.queue == s.queue && s'.added == s.added && s'.removed == s.removed && s'.refusals == s.refusals
  {
  }

  lemma WalkKeeps(s: State, id: nat, message: Message, stop: bool)
    requires Inv(s) && id in s.threads && !s.threads[id].at.Hold? && WorkerStep(s, id, message, stop).Some?
    ensures Inv(WorkerStep(s, id, message, stop).value)
  {
    WalkAgrees(s, id, message, stop);
    WalkMutex(s, id, message, stop);
    WalkLeavesRing(s, id, message, stop);
  }

  lemma WorkerKeeps(s: State, id: nat, message: Message, stop: bool)
    requires Inv(s) && id in s.threads && WorkerStep(s, id, message, stop).Some?
    ensures Inv(WorkerStep(s, id, message, stop).value)
  {
    if s.threads[id].at.Hold? {
      UseTokenKeeps(s, id, message);
    } else {
      WalkKeeps(s, id, message, stop);
    }
  }

  lemma StepKeeps(s: State, l: Label)
    requires Inv(s) && Step(s, l).Some?
    ensures Inv(Step(s, l).value)
  {
    match l
    case Spawn(role, id) => Counts(s, id, Worker(role, Wait), Step(s, l).value);
    case Press(plus) =>
    case Main => MainKeeps(s);
    case Work(id, message, stop) => WorkerKeeps(s, id, message, stop);
  }

  /** In every reachable state, with any number of producers and consumers and any sequence of '+' and
      '-': tokens agree with slots and messages, the ring never refuses, and messages are in order. */
  lemma {:induction false} EveryRunAgrees(s: State, labels: seq<Label>)
    requires Inv(s) && Run(s, labels).Some?
    ensures Inv(Run(s, labels).value)
    decreases |labels|
  {
    if labels != [] {
      StepKeeps(s, labels[0]);
      EveryRunAgrees(Step(s, labels[0]).value, labels[1..]);
    }
  }
}
