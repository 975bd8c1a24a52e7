/** What the agreement of tokens, slots and messages means for the users of Lab5's queue. */
module ResizableTheorems {
  import opened Options
  import opened RingQueue
  import opened Workers
  import opened ResizableProtocol
  import opened ResizableRuns
  import opened ResizableSafety
  import T = Turns

  lemma ReachableInv(labels: seq<Label>)
    requires Run(Initial(), labels).Some?
    ensures Inv(Run(Initial(), labels).value)
  {
    InitialInv();
    EveryRunAgrees(Initial(), labels);
  }

  // ---- The order of messages.

  function ConsumedOf(removed: seq<Removal>): seq<Message> {
    if removed == [] then []
    else
      var last := removed[|removed| - 1];
      ConsumedOf(removed[..|removed| - 1]) + (if last.Consumed? then [last.message] else [])
  }

  lemma {:induction false} ConsumedInOrder(removed: seq<Removal>)
    ensures Subsequence(ConsumedOf(removed), Messages(removed))
  {
    if removed != [] {
      var rest, last := removed[..|removed| - 1], removed[|removed| - 1];
      ConsumedInOrder(rest);
      var a, b := ConsumedOf(rest), Messages(rest);
      assert (b + [last.message])[..|b|] == b;
      if last.Consumed? {
        assert (a + [last.message])[..|a|] == a;
      } else {
        assert a + [] == a;
      }
    }
  }

  /** '-' takes a slot of a ring without a free one. */
  predicate ErasesFull(s: State, l: Label) {
    l.Main? && s.main.MinusLocked? && s.queue.Full() && s.queue.capacity > 0
  }

  predicate NeverErasesFull(s: State, labels: seq<Label>)
    requires Run(s, labels).Some?
    decreases |labels|
  {
    labels == [] || (!ErasesFull(s, labels[0]) && NeverErasesFull(Step(s, labels[0]).value, labels[1..]))
  }

  predicate NothingLost(removed: seq<Removal>) {
    forall r | r in removed :: r.Consumed?
  }

  lemma LostBy(removed: seq<Removal>, r: Removal)
    ensures NothingLost(removed + [r]) <==> NothingLost(removed) && r.Consumed?
  {
    assert r in removed + [r];
    assert forall x | x in removed :: x in removed + [r];
  }

  /** All removed messages were consumed exactly if as many were consumed as removed. */
  lemma {:induction false} NothingLostCounts(removed: seq<Removal>)
    ensures |ConsumedOf(removed)| <= |Messages(removed)| == |removed|
    ensures NothingLost(removed) ==> ConsumedOf(removed) == Messages(removed)
    ensures !NothingLost(removed) ==> |ConsumedOf(removed)| < |removed|
  {
    if removed != [] {
      var rest, last := removed[..|removed| - 1], removed[|removed| - 1];
      NothingLostCounts(rest);
      LostBy(rest, last);
      assert removed == rest + [last];
    }
  }

  /** Messages are consumed in the order in which they were produced; exactly if '-' has dropped none, they are all
      up to the pending ones. */
  lemma ConsumedAsProduced(s: State)
    requires Inv(s)
    ensures Subsequence(ConsumedOf(s.removed), s.added)
    ensures s.added == ConsumedOf(s.removed) + s.queue.pending <==> NothingLost(s.removed)
  {
    ConsumedInOrder(s.removed);
    SubsequenceExtends(ConsumedOf(s.removed), Messages(s.removed), s.queue.pending);
    NothingLostCounts(s.removed);
  }

  /** A step loses a message exactly if it is '-' on a full ring. */
  lemma StepDrops(s: State, l: Label)
    requires Inv(s) && Step(s, l).Some?
    ensures NothingLost(Step(s, l).value.removed) <==> NothingLost(s.removed) && !ErasesFull(s, l)
  {
    var removed := Step(s, l).value.removed;
    if |removed| > |s.removed| {
      LostBy(s.removed, removed[|s.removed|]);
    }
  }

  /** No message is lost if and only if '-' never hits a full ring. */
  lemma {:induction false} NoDrops(s: State, labels: seq<Label>)
    requires Inv(s) && Run(s, labels).Some?
    ensures NothingLost(Run(s, labels).value.removed) <==> NothingLost(s.removed) && NeverErasesFull(s, labels)
    decreases |labels|
  {
    if labels != [] {
      StepDrops(s, labels[0]);
      StepKeeps(s, labels[0]);
      NoDrops(Step(s, labels[0]).value, labels[1..]);
    }
  }

  /** What a step does to the queue and to the history of messages: nothing; or a producer puts the message it has
      generated into a free slot; or a consumer takes the oldest one; or '+' adds a free slot; or '-' takes one away,
      with the oldest message if none is free. */
  ghost predicate QueueStep(s: State, l: Label, s': State) {
    var q, q' := s.queue, s'.queue;
    || (q' == q && s'.added == s.added && s'.removed == s.removed)
    || (&& l.Work? && l.id in s.threads && s.threads[l.id].role.Producer? && !q.Full()
        && q' == Queue(q.capacity, q.pending + [l.message])
        && s'.added == s.added + [l.message] && s'.removed == s.removed)
    || (&& l.Work? && l.id in s.threads && s.threads[l.id].role.Consumer? && q.pending != []
        && q' == Queue(q.capacity, q.pending[1..])
        && s'.added == s.added && s'.removed == s.removed + [Consumed(q.pending[0])])
    || (&& s.main.PlusLocked? && q' == Queue(q.capacity + 1, q.pending)
        && s'.added == s.added && s'.removed == s.removed)
    || (&& s.main.MinusLocked? && q.Free() > 0 && q' == Queue(q.capacity - 1, q.pending)
        && s'.added == s.added && s'.removed == s.removed)
    || (&& s.main.MinusLocked? && q.Full() && q.pending != [] && q' == Queue(q.capacity - 1, q.pending[1..])
        && s'.added == s.added && s'.removed == s.removed + [Dropped(q.pending[0])])
  }

  lemma RefinesQueue(s: State, l: Label)
    requires Inv(s) && Step(s, l).Some?
    ensures QueueStep(s, l, Step(s, l).value)
  {
    if l.Work? && s.threads[l.id].at.Hold? && Passes(s, s.threads[l.id].role) == 0 {
      TokenIsGood(s, l.id);
    }
  }

  /** Any run from the start: no ring operation is refused, tokens agree with slots and with messages, and messages
      that producers have generated leave in the order in which they came; none gets lost if and only if '-' never
      hits a full ring. There are as many slots as the keys make. */
  lemma WholeRun(labels: seq<Label>)
    requires Run(Initial(), labels).Some?
    ensures var end := Run(Initial(), labels).value;
            && end.refusals == 0 && EmptyAgrees(end) && FilledAgrees(end)
            && end.queue.capacity + Outstanding(end.main)
               == BUFFER_SIZE + Keys(labels, true) - Keys(labels, false)
            && end.added == Messages(end.removed) + end.queue.pending
            && Subsequence(ConsumedOf(end.removed), end.added)
            && Subsequence(end.added, T.Generated(map[], Events(labels)))
            && Subsequence(ConsumedOf(end.removed), T.Generated(map[], Events(labels)))
            && (end.added == ConsumedOf(end.removed) + end.queue.pending <==> NeverErasesFull(Initial(), labels))
  {
    hide NeverErasesFull, Subsequence, ConsumedOf;
    ReachableInv(labels);
    KeysDecide(labels);
    var end, generated := Run(Initial(), labels).value, T.Generated(map[], Events(labels));
    ConsumedAsProduced(end);
    AddedAreGenerated(Initial(), labels);
    assert T.Roles(Initial().threads) == map[] && [] + generated == generated;
    SubsequenceTransitive(ConsumedOf(end.removed), end.added, generated);
    NoDrops(Initial(), labels);
  }

  // ---- Progress.

  predicate CanMove(s: State, id: nat)
    requires id in s.threads
  {
    WorkerStep(s, id, seq(LEN_MESSAGE, _ => 0), false).Some?
  }

  ghost predicate NobodyCanMove(s: State) {
    forall id | id in s.threads :: !CanMove(s, id)
  }

  predicate Live(s: State, id: nat, role: Role) {
    id in s.threads && s.threads[id].role == role && !s.threads[id].at.Stopped?
  }

  lemma MutexFree(s: State)
    requires MutexHeld(s) && s.main.Ready? && forall id | id in s.threads :: !Inside(s.threads[id])
    ensures s.mutex.None?
  {
    match s.mutex
    case None =>
    case Some(holder) =>
      match holder
      case MainThread =>
      case WorkerThread(id) =>
  }

  lemma AllAtRest(s: State)
    requires Inv(s) && s.main.Ready? && NobodyCanMove(s)
    ensures forall id | id in s.threads :: s.threads[id].at.Wait? || s.threads[id].at.Stopped?
    ensures forall role: Role :: Holding(s, role) == 0 && Owing(s, role) == 0
  {
    forall id | id in s.threads ensures !Inside(s.threads[id]) {
      assert !CanMove(s, id);
    }
    MutexFree(s);
    forall id | id in s.threads ensures s.threads[id].at.Wait? || s.threads[id].at.Stopped? {
      assert !CanMove(s, id);
    }
    forall role: Role ensures Holding(s, role) == 0 && Owing(s, role) == 0 {
      CountZero(s.threads, w => HasToken(w, role));
      CountZero(s.threads, w => OwesToken(w, role));
    }
  }

  /** With main at the prompt and a live worker of each kind, all workers block exactly when each waits at
      its semaphore and no token is left, and that happens only once all slots and debts are gone. */
  lemma BlockedMeansNoSlots(s: State, p: nat, c: nat)
    requires Inv(s) && s.main.Ready? && Live(s, p, Producer) && Live(s, c, Consumer)
    ensures NobodyCanMove(s) <==>
              && s.empty == 0 && s.filled == 0
              && (forall id | id in s.threads :: s.threads[id].at.Wait? || s.threads[id].at.Stopped?)
    ensures NobodyCanMove(s) ==> s.queue.capacity == 0 && s.producerPasses == 0 && s.consumerPasses == 0
  {
    if NobodyCanMove(s) {
      AllAtRest(s);
      assert !CanMove(s, p) && !CanMove(s, c);
    }
  }

  /** No deadlock: with a slot and a live worker of each kind somebody can move, and so can main inside '+' or '-'. */
  lemma SomebodyCanMove(s: State, p: nat, c: nat)
    requires Inv(s) && Live(s, p, Producer) && Live(s, c, Consumer) && s.queue.capacity > 0 && !s.main.Exited?
    ensures s.main.Ready? ==> exists id :: id in s.threads && CanMove(s, id)
    ensures !s.main.Ready? ==> MainStep(s).Some?
  {
    if s.main.Ready? {
      BlockedMeansNoSlots(s, p, c);
    }
  }

  // ---- A key and a turn as a whole.

  lemma Chain(s: State, l: Label, t: State, rest: seq<Label>, u: State)
    requires Step(s, l) == Some(t) && Run(t, rest) == Some(u)
    ensures Run(s, [l] + rest) == Some(u)
  {
    assert ([l] + rest)[1..] == rest;
  }

  /** What a key comes to: a slot and its token more; or a slot less and a pass more, for a producer if the slot was
      free, for a consumer if it was not; or without a ring, the end of the program, which keeps the mutex. */
  function AfterKey(s: State, plus: bool): State
    requires s.queue.Valid()
  {
    var capacity, pending := s.queue.capacity, s.queue.pending;
    if plus then s.(queue := Queue(capacity + 1, pending), empty := s.empty + 1)
    else if capacity == 0 then s.(mutex := Some(MainThread), main := Exited)
    else if |pending| < capacity then s.(queue := Queue(capacity - 1, pending), producerPasses := s.producerPasses + 1)
    else s.(queue := Queue(capacity - 1, pending[1..]), removed := s.removed + [Dropped(pending[0])],
            consumerPasses := s.consumerPasses + 1)
  }

  /** What main does under the mutex, the last statement left out. */
  function BeforeUnlock(s: State, plus: bool): State
    requires s.queue.Valid()
  {
    AfterKey(s, plus).(mutex := Some(MainThread), main := if plus then PlusPosted else MinusNoted)
  }

  lemma MainWorks(s: State, plus: bool) returns (t: State, u: State)
    requires s.queue.Valid() && s.main.Ready? && s.mutex.None? && (plus || s.queue.capacity > 0)
    ensures Step(s, Press(plus)) == Some(t) && Step(t, Main) == Some(u)
    ensures Step(u, Main) == Some(BeforeUnlock(s, plus))
    ensures Step(BeforeUnlock(s, plus), Main) == Some(AfterKey(s, plus))
  {
    t := Step(s, Press(plus)).value;
    u := Step(t, Main).value;
  }

  lemma MainExits(s: State)
    requires s.queue.Valid() && s.main.Ready? && s.mutex.None? && s.queue.capacity == 0
    ensures Run(s, [Press(false), Main]) == Some(AfterKey(s, false))
  {
    var t := Step(s, Press(false)).value;
    assert Step(t, Main) == Some(AfterKey(s, false));
    Chain(t, Main, AfterKey(s, false), [], AfterKey(s, false));
    Chain(s, Press(false), t, [Main] + [], AfterKey(s, false));
    assert [Press(false)] + ([Main] + []) == [Press(false), Main];
  }

  lemma MainFinishes(s: State, plus: bool)
    requires s.queue.Valid() && s.main.Ready? && s.mutex.None? && (plus || s.queue.capacity > 0)
    ensures Run(s, [Press(plus), Main, Main, Main]) == Some(AfterKey(s, plus))
  {
    var end := AfterKey(s, plus);
    var t, u := MainWorks(s, plus);
    hide AfterKey, BeforeUnlock, Step;
    assert Run(end, []) == Some(end);
    Chain(BeforeUnlock(s, plus), Main, end, [], end);
    Chain(u, Main, BeforeUnlock(s, plus), [Main] + [], end);
    Chain(t, Main, u, [Main] + ([Main] + []), end);
    Chain(s, Press(plus), t, [Main] + ([Main] + ([Main] + [])), end);
    assert [Press(plus)] + ([Main] + ([Main] + ([Main] + []))) == [Press(plus), Main, Main, Main];
  }

  /** At the prompt a key can be pressed unless a worker is in the critical section; and if nobody else moves, main
      does all of it. */
  lemma KeyPress(s: State, plus: bool)
    requires Inv(s) && s.main.Ready?
    ensures Step(s, Press(plus)).Some? <==> forall id | id in s.threads :: !Inside(s.threads[id])
    ensures Step(s, Press(plus)).Some? ==>
              Run(s, if plus || s.queue.capacity > 0 then [Press(plus), Main, Main, Main] else [Press(plus), Main])
              == Some(AfterKey(s, plus))
  {
    hide AfterKey, Run;
    if forall id | id in s.threads :: !Inside(s.threads[id]) {
      MutexFree(s);
    }
    if Step(s, Press(plus)).Some? {
      if plus || s.queue.capacity > 0 {
        MainFinishes(s, plus);
      } else {
        MainExits(s);
      }
    }
  }

  /** A worker has taken its token and the mutex, and used up a pass or moved a message. */
  function AfterHold(s: State, id: nat, message: Message): State
    requires id in s.threads && Tokens(s, s.threads[id].role) > 0
  {
    var role, q := s.threads[id].role, s.queue;
    var t := s.(mutex := Some(WorkerThread(id)),
                threads := s.threads[id := Worker(role, if Passes(s, role) > 0 then Paid else Moved)]);
    if role.Producer? then
      if s.producerPasses > 0 then t.(empty := s.empty - 1, producerPasses := s.producerPasses - 1)
      else t.(empty := s.empty - 1, queue := Queue(q.capacity, q.pending + [message]), added := s.added + [message])
    else if s.consumerPasses > 0 then t.(filled := s.filled - 1, consumerPasses := s.consumerPasses - 1)
    else if q.pending == [] then t
    else t.(filled := s.filled - 1,
            queue := Queue(q.capacity, q.pending[1..]), removed := s.removed + [Consumed(q.pending[0])])
  }

  /** What a turn of a worker comes to: its token and a pass are gone; or its token is one of the other side, and the
      message has been put or taken. */
  function AfterTurn(s: State, id: nat, message: Message, stop: bool): State
    requires id in s.threads && Tokens(s, s.threads[id].role) > 0
  {
    var role := s.threads[id].role;
    var t := AfterHold(s, id, message).(mutex := s.mutex,
               threads := s.threads[id := Worker(role, if stop then Stopped else Wait)]);
    if Passes(s, role) > 0 then t
    else if role.Producer? then t.(filled := s.filled + 1) else t.(empty := s.empty + 1)
  }

  lemma TurnEnters(s: State, id: nat, message: Message, stop: bool) returns (t: State, u: State)
    requires s.mutex.None? && !s.main.Exited? && id in s.threads && s.threads[id].at.Wait?
    requires Tokens(s, s.threads[id].role) > 0
    ensures Step(s, Work(id, message, stop)) == Some(t) && Step(t, Work(id, message, stop)) == Some(u)
    ensures u.threads == s.threads[id := Worker(s.threads[id].role, Hold)]
    ensures if s.threads[id].role.Producer? then u == s.(empty := s.empty - 1, mutex := u.mutex, threads := u.threads)
            else u == s.(filled := s.filled - 1, mutex := u.mutex, threads := u.threads)
    ensures u.mutex == Some(WorkerThread(id))
  {
    t := Step(s, Work(id, message, stop)).value;
    u := Step(t, Work(id, message, stop)).value;
  }

  lemma TurnBegins(s: State, id: nat, message: Message, stop: bool) returns (t: State, u: State)
    requires Inv(s) && s.mutex.None? && !s.main.Exited? && id in s.threads && s.threads[id].at.Wait?
    requires Tokens(s, s.threads[id].role) > 0
    ensures Step(s, Work(id, message, stop)) == Some(t) && Step(t, Work(id, message, stop)) == Some(u)
    ensures Inv(u) && u.threads == s.threads[id := Worker(s.threads[id].role, Hold)]
    ensures if s.threads[id].role.Producer? then u == s.(empty := s.empty - 1, mutex := u.mutex, threads := u.threads)
            else u == s.(filled := s.filled - 1, mutex := u.mutex, threads := u.threads)
    ensures u.mutex == Some(WorkerThread(id))
  {
    hide Inv, Step;
    t, u := TurnEnters(s, id, message, stop);
    StepKeeps(s, Work(id, message, stop));
    StepKeeps(t, Work(id, message, stop));
  }

  lemma TurnHolds(s: State, id: nat, message: Message, stop: bool, u: State)
    requires id in s.threads && !s.main.Exited? && Tokens(s, s.threads[id].role) > 0
    requires Inv(u) && u.threads == s.threads[id := Worker(s.threads[id].role, Hold)]
    requires if s.threads[id].role.Producer? then u == s.(empty := s.empty - 1, mutex := u.mutex, threads := u.threads)
             else u == s.(filled := s.filled - 1, mutex := u.mutex, threads := u.threads)
    requires u.mutex == Some(WorkerThread(id))
    ensures Step(u, Work(id, message, stop)) == Some(AfterHold(s, id, message))
    ensures s.threads[id].role.Consumer? && s.consumerPasses == 0 ==> s.queue.pending != []
  {
    var v := AfterHold(s, id, message);
    if Passes(s, s.threads[id].role) == 0 {
      TokenIsGood(u, id);
    }
    assert u.threads[id := v.threads[id]] == v.threads;
  }

  lemma TurnEnds(s: State, id: nat, message: Message, stop: bool)
    requires s.mutex.None? && !s.main.Exited? && id in s.threads && Tokens(s, s.threads[id].role) > 0
    ensures Passes(s, s.threads[id].role) > 0 ==>
              Run(AfterHold(s, id, message), [Work(id, message, stop), Work(id, message, stop)])
              == Some(AfterTurn(s, id, message, stop))
    ensures Passes(s, s.threads[id].role) == 0 ==>
              Run(AfterHold(s, id, message),
                  [Work(id, message, stop), Work(id, message, stop), Work(id, message, stop)])
              == Some(AfterTurn(s, id, message, stop))
  {
    var l, v, end := Work(id, message, stop), AfterHold(s, id, message), AfterTurn(s, id, message, stop);
    var w := Step(v, l).value;
    var x := Step(w, l).value;
    if Passes(s, s.threads[id].role) > 0 {
      assert x.threads == end.threads && x == end;
      Chain(w, l, end, [], end);
      Chain(v, l, w, [l] + [], end);
      assert [l] + ([l] + []) == [l, l];
    } else {
      var y := Step(x, l).value;
      assert y.threads == end.threads && y == end;
      Chain(x, l, end, [], end);
      Chain(w, l, x, [l] + [], end);
      Chain(v, l, w, [l] + ([l] + []), end);
      assert [l] + ([l] + ([l] + [])) == [l, l, l];
    }
  }

  /** A worker that finds a token and the mutex free goes through its loop once, in five steps if it uses up a pass and
      in six if it moves a message. */
  lemma WorkerTurn(s: State, id: nat, message: Message, stop: bool)
    requires Inv(s) && s.mutex.None? && !s.main.Exited? && id in s.threads && s.threads[id].at.Wait?
    requires Tokens(s, s.threads[id].role) > 0
    ensures var l := Work(id, message, stop);
            Run(s, if Passes(s, s.threads[id].role) > 0 then [l, l, l, l, l] else [l, l, l, l, l, l])
            == Some(AfterTurn(s, id, message, stop))
    ensures s.threads[id].role.Consumer? && s.consumerPasses == 0 ==> s.queue.pending != []
  {
    hide Inv, Step, Run, AfterHold, AfterTurn;
    var l, v, end := Work(id, message, stop), AfterHold(s, id, message), AfterTurn(s, id, message, stop);
    var t, u := TurnBegins(s, id, message, stop);
    TurnHolds(s, id, message, stop, u);
    TurnEnds(s, id, message, stop);
    var rest := if Passes(s, s.threads[id].role) > 0 then [l, l] else [l, l, l];
    Chain(u, l, v, rest, end);
    Chain(t, l, u, [l] + rest, end);
    Chain(s, l, t, [l] + ([l] + rest), end);
    assert [l] + ([l] + ([l] + [l, l])) == [l, l, l, l, l] && [l] + ([l] + ([l] + [l, l, l])) == [l, l, l, l, l, l];
  }
}
