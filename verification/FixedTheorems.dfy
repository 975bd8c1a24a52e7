/** In every run of Lab4 the three semaphores make the ring a bounded queue that never refuses. */
module FixedTheorems {
  import opened RingQueue
  import opened Workers
  import opened FixedProtocol

  ghost function Holding(s: State, role: Role): nat {
    Count(s.threads, w => HasToken(w, role))
  }

  ghost function Owing(s: State, role: Role): nat {
    Count(s.threads, w => OwesToken(w, role))
  }

  ghost function Entered(s: State): nat {
    Count(s.threads, w => Inside(w))
  }

  ghost predicate TokensAgree(s: State) {
    && s.empty + Holding(s, Producer) + Owing(s, Consumer) == |s.slots.order| - |s.slots.pending|
    && s.filled + Holding(s, Consumer) + Owing(s, Producer) == |s.slots.pending|
    && s.mutex + Entered(s) == 1
  }

  /** First in, first out. */
  predicate Fifo(s: State) {
    s.produced == s.consumed + s.slots.pending
  }

  ghost predicate Inv(s: State, capacity: nat) {
    && s.slots.Valid() && |s.slots.order| == capacity && 0 !in s.slots.order
    && TokensAgree(s) && Fifo(s) && s.refusals == 0
    && (forall t | t in s.threads :: !s.threads[t].at.Paid?)
  }

  lemma InitialInv(ids: seq<int>)
    requires 0 !in ids
    ensures Inv(Initial(ids), |ids|)
  {
    CountZero(map[], w => HasToken(w, Producer));
    CountZero(map[], w => OwesToken(w, Consumer));
    CountZero(map[], w => HasToken(w, Consumer));
    CountZero(map[], w => OwesToken(w, Producer));
    CountZero(map[], w => Inside(w));
  }

  /** How the counts move with one process. */
  lemma Counts(s: State, id: nat, w: Worker, s': State)
    requires s'.threads == s.threads[id := w]
    ensures var was := if id in s.threads then s.threads[id] else Worker(w.role, Stopped);
            && Holding(s', Producer) == Holding(s, Producer) - One(HasToken(was, Producer)) + One(HasToken(w, Producer))
            && Holding(s', Consumer) == Holding(s, Consumer) - One(HasToken(was, Consumer)) + One(HasToken(w, Consumer))
            && Owing(s', Producer) == Owing(s, Producer) - One(OwesToken(was, Producer)) + One(OwesToken(w, Producer))
            && Owing(s', Consumer) == Owing(s, Consumer) - One(OwesToken(was, Consumer)) + One(OwesToken(w, Consumer))
            && Entered(s') == Entered(s) - One(Inside(was)) + One(Inside(w))
  {
    CountUpdate(s.threads, w => HasToken(w, Producer), id, w);
    CountUpdate(s.threads, w => HasToken(w, Consumer), id, w);
    CountUpdate(s.threads, w => OwesToken(w, Producer), id, w);
    CountUpdate(s.threads, w => OwesToken(w, Consumer), id, w);
    CountUpdate(s.threads, w => Inside(w), id, w);
  }

  /** A process with a token finds the slot or the message that the token stands for. */
  lemma TokenIsGood(s: State, capacity: nat, id: nat)
    requires Inv(s, capacity) && id in s.threads && s.threads[id].at.Hold?
    ensures s.slots.Usable()
    ensures s.threads[id].role.Producer? ==> !s.slots.Full()
    ensures s.threads[id].role.Consumer? ==> s.slots.pending != []
  {
    var role := s.threads[id].role;
    CountPositive(s.threads, w => HasToken(w, role), id);
    assert Holding(s, role) > 0;
    assert s.slots.order[0] in s.slots.order;
  }

  lemma MoveFifo(s: State, role: Role, message: Message)
    requires s.slots.Valid() && 0 !in s.slots.order && Fifo(s)
    ensures var s' := MoveMessage(s, role, message);
            s'.slots.Valid() && 0 !in s'.slots.order && |s'.slots.order| == |s.slots.order| && Fifo(s')
  {
    if role.Consumer? && s.slots.pending != [] {
      assert s.slots.pending == [s.slots.pending[0]] + s.slots.pending[1..];
    }
  }

  lemma HoldKeeps(s: State, capacity: nat, id: nat, message: Message, stop: bool)
    requires Inv(s, capacity) && id in s.threads && s.threads[id].at.Hold?
    ensures WorkerStep(s, id, message, stop).Some? && Inv(WorkerStep(s, id, message, stop).value, capacity)
  {
    var s' := WorkerStep(s, id, message, stop).value;
    TokenIsGood(s, capacity, id);
    MoveFifo(s, s.threads[id].role, message);
    Counts(s, id, s'.threads[id], s');
  }

  lemma WalkAgrees(s: State, id: nat, message: Message, stop: bool)
    requires TokensAgree(s)
    requires id in s.threads && !s.threads[id].at.Hold? && WorkerStep(s, id, message, stop).Some?
    ensures TokensAgree(WorkerStep(s, id, message, stop).value)
  {
    var s', w := WorkerStep(s, id, message, stop).value, s.threads[id];
    Counts(s, id, s'.threads[id], s');
    match w.at
    case Wait => assert HasToken(s'.threads[id], w.role);
    case Post => assert OwesToken(w, w.role);
    case Lock => assert s'.empty == s.empty && s'.filled == s.filled;
    case Moved => assert s'.empty == s.empty && s'.filled == s.filled;
    case Test => assert s'.empty == s.empty && s'.filled == s.filled;
    case Paid =>
  }

  lemma WalkKeeps(s: State, capacity: nat, id: nat, message: Message, stop: bool)
    requires Inv(s, capacity)
    requires id in s.threads && !s.threads[id].at.Hold? && WorkerStep(s, id, message, stop).Some?
    ensures Inv(WorkerStep(s, id, message, stop).value, capacity)
  {
    WalkAgrees(s, id, message, stop);
  }

  lemma SpawnKeeps(s: State, capacity: nat, role: Role, id: nat)
    requires Inv(s, capacity) && id !in s.threads
    ensures Inv(s.(threads := s.threads[id := Worker(role, Wait)]), capacity)
  {
    Counts(s, id, Worker(role, Wait), s.(threads := s.threads[id := Worker(role, Wait)]));
  }

  lemma StepKeeps(s: State, capacity: nat, l: Label)
    requires Inv(s, capacity) && Step(s, l).Some?
    ensures Inv(Step(s, l).value, capacity)
  {
    match l
    case Spawn(role, id) => SpawnKeeps(s, capacity, role, id);
    case Work(id, message, stop) =>
      if s.threads[id].at.Hold? {
        HoldKeeps(s, capacity, id, message, stop);
      } else {
        WalkKeeps(s, capacity, id, message, stop);
      }
  }

  /** A step leaves the queue alone, or is one of a producer that adds the message it has generated to a queue that is
      not full, or one of a consumer that takes the oldest message from a queue that is not empty. */
  ghost predicate QueueStep(s: State, l: Label, s': State) {
    var q, q' := s.slots.AsQueue(), s'.slots.AsQueue();
    || (q' == q && s'.produced == s.produced && s'.consumed == s.consumed)
    || (&& l.Work? && l.id in s.threads && s.threads[l.id].role.Producer? && !q.Full()
        && q' == q.Put(l.message) && s'.produced == s.produced + [l.message] && s'.consumed == s.consumed)
    || (&& l.Work? && l.id in s.threads && s.threads[l.id].role.Consumer? && q.pending != []
        && q' == q.Take() && s'.produced == s.produced && s'.consumed == s.consumed + [q.pending[0]])
  }

  /** Every step of the processes is a step of a bounded queue. */
  lemma RefinesBoundedQueue(s: State, capacity: nat, l: Label)
    requires Inv(s, capacity) && Step(s, l).Some?
    ensures QueueStep(s, l, Step(s, l).value)
  {
    if l.Work? && s.threads[l.id].at.Hold? {
      TokenIsGood(s, capacity, l.id);
      if s.threads[l.id].role.Producer? {
        assert s.slots.AsQueue().Put(l.message) == Step(s, l).value.slots.AsQueue();
      }
    }
  }

  lemma CardinalityBound(a: set<nat>, b: set<nat>)
    requires a <= b
    ensures |a| <= |b|
  {
    if a != {} {
      var x :| x in a;
      CardinalityBound(a - {x}, b - {x});
    }
  }

  /** In every reachable state: tokens agree with slots, the ring has never refused, what was extracted is
      a prefix of what was added, and the difference is the messages in the ring, at most its capacity. */
  lemma {:induction false} EveryRunAgrees(s: State, capacity: nat, labels: seq<Label>)
    requires Inv(s, capacity) && Run(s, labels).Some?
    ensures var end := Run(s, labels).value;
            && Inv(end, capacity)
            && end.consumed <= end.produced
            && |end.produced| - |end.consumed| == |end.slots.pending| <= capacity
    decreases |labels|
  {
    if labels != [] {
      StepKeeps(s, capacity, labels[0]);
      EveryRunAgrees(Step(s, labels[0]).value, capacity, labels[1..]);
    }
  }

  // ---- What holds for any segments, the id 0 included.

  /** Tokens on their way. */
  ghost function OnTheWay(s: State): nat {
    Holding(s, Producer) + Holding(s, Consumer) + Owing(s, Producer) + Owing(s, Consumer)
  }

  /** No token is made or lost, and whoever is inside has taken the mutex. */
  ghost predicate Conserved(s: State, capacity: nat) {
    && s.empty + s.filled + OnTheWay(s) == capacity
    && s.mutex + Entered(s) == 1
    && (forall t | t in s.threads :: !s.threads[t].at.Paid?)
  }

  lemma InitialConserved(ids: seq<int>)
    ensures Conserved(Initial(ids), |ids|)
  {
    CountZero(map[], w => HasToken(w, Producer));
    CountZero(map[], w => OwesToken(w, Consumer));
    CountZero(map[], w => HasToken(w, Consumer));
    CountZero(map[], w => OwesToken(w, Producer));
    CountZero(map[], w => Inside(w));
  }

  function Carried(w: Worker): nat {
    One(w.at.Lock? || w.at.Hold? || w.at.Moved? || w.at.Post?)
  }

  lemma OnTheWayMoves(s: State, id: nat, w: Worker, s': State)
    requires s'.threads == s.threads[id := w]
    ensures OnTheWay(s') == OnTheWay(s) - (if id in s.threads then Carried(s.threads[id]) else 0) + Carried(w)
    ensures Entered(s') == Entered(s) - One(id in s.threads && Inside(s.threads[id])) + One(Inside(w))
  {
    Counts(s, id, w, s');
  }

  lemma WorkerConserves(s: State, capacity: nat, id: nat, message: Message, stop: bool)
    requires Conserved(s, capacity) && id in s.threads && WorkerStep(s, id, message, stop).Some?
    ensures Conserved(WorkerStep(s, id, message, stop).value, capacity)
  {
    var s' := WorkerStep(s, id, message, stop).value;
    OnTheWayMoves(s, id, s'.threads[id], s');
  }

  lemma StepConserves(s: State, capacity: nat, l: Label)
    requires Conserved(s, capacity) && Step(s, l).Some?
    ensures Conserved(Step(s, l).value, capacity)
  {
    match l
    case Spawn(role, id) => OnTheWayMoves(s, id, Worker(role, Wait), Step(s, l).value);
    case Work(id, message, stop) => WorkerConserves(s, capacity, id, message, stop);
  }

  lemma {:induction false} EveryRunConserves(s: State, capacity: nat, labels: seq<Label>)
    requires Conserved(s, capacity) && Run(s, labels).Some?
    ensures Conserved(Run(s, labels).value, capacity)
    decreases |labels|
  {
    if labels != [] {
      StepConserves(s, capacity, labels[0]);
      EveryRunConserves(Step(s, labels[0]).value, capacity, labels[1..]);
    }
  }

  /** In every run at most one process is in the critical section. */
  lemma MutualExclusion(ids: seq<int>, labels: seq<Label>, t: nat, u: nat)
    requires Run(Initial(ids), labels).Some?
    requires var ts := Run(Initial(ids), labels).value.threads; t in ts && u in ts && Inside(ts[t]) && Inside(ts[u])
    ensures t == u
  {
    InitialConserved(ids);
    EveryRunConserves(Initial(ids), |ids|, labels);
    var inside := Those(Run(Initial(ids), labels).value.threads, w => Inside(w));
    assert t in inside && u in inside;
    CardinalityBound({t, u}, inside);
    assert |{t, u}| <= 1;
  }

  predicate CanMove(s: State, id: nat)
    requires id in s.threads
  {
    WorkerStep(s, id, seq(LEN_MESSAGE, _ => 0), false).Some?
  }

  predicate Live(s: State, id: nat, role: Role) {
    id in s.threads && s.threads[id].role == role && !s.threads[id].at.Stopped?
  }

  lemma AllAtRest(s: State, capacity: nat)
    requires Conserved(s, capacity) && forall id | id in s.threads :: !CanMove(s, id)
    ensures forall id | id in s.threads :: s.threads[id].at.Wait? || s.threads[id].at.Stopped?
    ensures forall role: Role :: Holding(s, role) == 0 && Owing(s, role) == 0
  {
    forall id | id in s.threads ensures !Inside(s.threads[id]) {
      assert !CanMove(s, id);
    }
    CountZero(s.threads, w => Inside(w));
    assert s.mutex == 1;
    forall id | id in s.threads ensures s.threads[id].at.Wait? || s.threads[id].at.Stopped? {
      assert !CanMove(s, id);
    }
    forall role: Role ensures Holding(s, role) == 0 && Owing(s, role) == 0 {
      CountZero(s.threads, w => HasToken(w, role));
      CountZero(s.threads, w => OwesToken(w, role));
    }
  }

  /** Of two processes at rest one finds a token, because no token is on its way. */
  lemma TokenLeft(s: State, capacity: nat, p: nat, c: nat)
    requires Conserved(s, capacity) && capacity > 0 && p in s.threads && c in s.threads
    requires s.threads[p] == Worker(Producer, Wait) && s.threads[c] == Worker(Consumer, Wait)
    requires forall role: Role :: Holding(s, role) == 0 && Owing(s, role) == 0
    ensures CanMove(s, p) || CanMove(s, c)
  {
  }

  /** No deadlock: in every run, with a live producer and a live consumer somebody can move. */
  lemma SomebodyCanMove(ids: seq<int>, labels: seq<Label>, p: nat, c: nat)
    requires ids != [] && Run(Initial(ids), labels).Some?
    requires Live(Run(Initial(ids), labels).value, p, Producer) && Live(Run(Initial(ids), labels).value, c, Consumer)
    ensures var end := Run(Initial(ids), labels).value; exists id :: id in end.threads && CanMove(end, id)
  {
    var s := Run(Initial(ids), labels).value;
    InitialConserved(ids);
    EveryRunConserves(Initial(ids), |ids|, labels);
    if forall id | id in s.threads :: !CanMove(s, id) {
      AllAtRest(s, |ids|);
      TokenLeft(s, |ids|, p, c);
    }
  }
}
