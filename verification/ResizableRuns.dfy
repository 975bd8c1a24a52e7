/** What a run of Lab5 makes of what happens in it: the keys that are pressed, the workers that are started, the
    messages that they generate, and what their loop tests find. */
module ResizableRuns {
  import opened Options
  import opened RingQueue
  import opened Workers
  import opened ResizableProtocol
  import T = Turns

  // ---- Keys.

  /** How often '+' or '-' is pressed. */
  function Keys(labels: seq<Label>, plus: bool): nat {
    if labels == [] then 0 else One(labels[0] == Press(plus)) + Keys(labels[1..], plus)
  }

  /** What the key pressed last has still to add to the slots. For the one on which main exits that is never done. */
  function Outstanding(main: MainAt): int {
    match main
    case PlusLocked => 1
    case MinusLocked => -1
    case Exited => -1
    case _ => 0
  }

  lemma StepCapacity(s: State, l: Label)
    requires Step(s, l).Some?
    ensures var s' := Step(s, l).value;
            s'.queue.capacity + Outstanding(s'.main)
            == s.queue.capacity + Outstanding(s.main) + One(l == Press(true)) - One(l == Press(false))
  {
  }

  lemma {:induction false} CapacityByKeys(s: State, labels: seq<Label>)
    requires Run(s, labels).Some?
    ensures var end := Run(s, labels).value;
            end.queue.capacity + Outstanding(end.main)
            == s.queue.capacity + Outstanding(s.main) + Keys(labels, true) - Keys(labels, false)
    decreases |labels|
  {
    if labels != [] {
      StepCapacity(s, labels[0]);
      CapacityByKeys(Step(s, labels[0]).value, labels[1..]);
    }
  }

  lemma {:induction false} ExitedWithoutSlots(s: State, labels: seq<Label>)
    requires Run(s, labels).Some? && (s.main.Exited? ==> s.queue.capacity == 0)
    ensures var end := Run(s, labels).value; end.main.Exited? ==> end.queue.capacity == 0
    decreases |labels|
  {
    if labels != [] {
      ExitedWithoutSlots(Step(s, labels[0]).value, labels[1..]);
    }
  }

  /** In every run each '+' adds a slot and each '-' takes one away, up to a '-' that finds none: with that one, and
      only with that one, the program is over. */
  lemma KeysDecide(labels: seq<Label>)
    requires Run(Initial(), labels).Some?
    ensures var end, balance := Run(Initial(), labels).value, BUFFER_SIZE + Keys(labels, true) - Keys(labels, false);
            && end.queue.capacity + Outstanding(end.main) == balance
            && (end.main.Ready? ==> end.queue.capacity == balance)
            && (end.main.Exited? ==> balance == -1 && end.queue.capacity == 0 && forall l :: Step(end, l).None?)
  {
    CapacityByKeys(Initial(), labels);
    ExitedWithoutSlots(Initial(), labels);
  }

  // ---- Workers.

  function EventOf(l: Label): seq<T.Event> {
    match l
    case Spawn(role, id) => [T.Spawn(role, id)]
    case Work(id, message, stop) => [T.Work(id, message, stop)]
    case _ => []
  }

  /** What happens to workers. */
  function Events(labels: seq<Label>): seq<T.Event> {
    if labels == [] then [] else EventOf(labels[0]) + Events(labels[1..])
  }

  lemma EventsFront(labels: seq<Label>)
    requires labels != []
    ensures EventOf(labels[0]) == [] ==> Events(labels) == Events(labels[1..])
    ensures EventOf(labels[0]) != [] ==>
              && |EventOf(labels[0])| == 1 && Events(labels) != []
              && Events(labels)[0] == EventOf(labels[0])[0] && Events(labels)[1..] == Events(labels[1..])
  {
  }

  lemma WorkerMoves(s: State, id: nat, message: Message, stop: bool)
    requires id in s.threads && WorkerStep(s, id, message, stop).Some?
    ensures var ts := WorkerStep(s, id, message, stop).value.threads;
            id in ts && ts == s.threads[id := ts[id]] && ts[id].role == s.threads[id].role
  {
  }

  lemma MainLeavesWorkers(s: State, l: Label)
    requires Step(s, l).Some? && EventOf(l) == []
    ensures Step(s, l).value.threads == s.threads && Step(s, l).value.added == s.added
  {
  }

  lemma StepRoles(s: State, l: Label)
    requires Step(s, l).Some? && EventOf(l) != []
    ensures T.Roles(Step(s, l).value.threads) == T.StartedBy(T.Roles(s.threads), EventOf(l)[0])
  {
    hide WorkerStep, T.Roles;
    match l
    case Spawn(role, id) => T.RolesUpdate(s.threads, id, Worker(role, Wait));
    case Work(id, message, stop) =>
      WorkerMoves(s, id, message, stop);
      T.RolesUpdate(s.threads, id, Step(s, l).value.threads[id]);
  }

  /** There are exactly the workers that were started, and each is what it was started as. */
  lemma {:induction false} RolesStay(s: State, labels: seq<Label>)
    requires Run(s, labels).Some?
    ensures T.Roles(Run(s, labels).value.threads) == T.Started(T.Roles(s.threads), Events(labels))
    decreases |labels|
  {
    hide Step, EventOf, T.Roles, T.StartedBy;
    if labels != [] {
      EventsFront(labels);
      if EventOf(labels[0]) == [] {
        MainLeavesWorkers(s, labels[0]);
      } else {
        StepRoles(s, labels[0]);
      }
      RolesStay(Step(s, labels[0]).value, labels[1..]);
    }
  }

  // ---- Messages.

  /** What a step adds to the ring, if anything, is the message that its producer has generated. */
  lemma StepAdds(s: State, l: Label)
    requires Step(s, l).Some? && EventOf(l) != []
    ensures var added, made := Step(s, l).value.added, T.GeneratedBy(T.Roles(s.threads), EventOf(l)[0]);
            |made| <= 1 && (added == s.added || added == s.added + made)
  {
  }

  /** What has been added to the ring are messages that producers have generated, in their order. */
  lemma {:induction false} AddedAreGenerated(s: State, labels: seq<Label>)
    requires Run(s, labels).Some?
    ensures Subsequence(Run(s, labels).value.added, s.added + T.Generated(T.Roles(s.threads), Events(labels)))
    decreases |labels|
  {
    hide Step, EventOf, T.Roles, T.GeneratedBy, Subsequence;
    if labels == [] {
      SubsequenceOfItself(s.added);
      assert s.added + [] == s.added;
    } else {
      var l, s', end := labels[0], Step(s, labels[0]).value, Run(s, labels).value;
      EventsFront(labels);
      AddedAreGenerated(s', labels[1..]);
      if EventOf(l) == [] {
        MainLeavesWorkers(s, l);
      } else {
        StepRoles(s, l);
        StepAdds(s, l);
        T.GeneratedExtends(s.added, T.GeneratedBy(T.Roles(s.threads), EventOf(l)[0]), s'.added, end.added,
                           T.Generated(T.Roles(s'.threads), Events(labels[1..])));
      }
    }
  }

  // ---- Loop tests.

  lemma StepPlaces(s: State, l: Label, id: nat, before: Option<bool>)
    requires Step(s, l).Some? && EventOf(l) != [] && T.Placed(s.threads, id, before)
    ensures T.Placed(Step(s, l).value.threads, id, T.Found(EventOf(l)[0], id, before))
  {
    if l.Work? {
      WorkerMoves(s, l.id, l.message, l.stop);
    }
  }

  lemma {:induction false} RunPlaces(s: State, labels: seq<Label>, id: nat, before: Option<bool>)
    requires Run(s, labels).Some? && T.Placed(s.threads, id, before)
    ensures T.Placed(Run(s, labels).value.threads, id, T.Last(Events(labels), id, before))
    decreases |labels|
  {
    hide Step, EventOf, T.Placed, T.Found;
    if labels != [] {
      EventsFront(labels);
      if EventOf(labels[0]) == [] {
        MainLeavesWorkers(s, labels[0]);
        RunPlaces(Step(s, labels[0]).value, labels[1..], id, before);
      } else {
        StepPlaces(s, labels[0], id, before);
        RunPlaces(Step(s, labels[0]).value, labels[1..], id, T.Found(EventOf(labels[0])[0], id, before));
      }
    }
  }

  /** In every run a worker starts at its semaphore, comes back to it only from a loop test that lets it go on, also
      after it has used up a pass, and stops only at one that does not. If none does not, it does not stop. */
  lemma LoopTestsDecide(labels: seq<Label>, id: nat)
    requires Run(Initial(), labels).Some?
    ensures var ts := Run(Initial(), labels).value.threads;
            && (id in ts ==> T.LeftAt(ts[id].at, T.Last(Events(labels), id, None)))
            && (T.AlwaysFinds(Events(labels), id, false) ==> !T.HasStopped(ts, id))
  {
    RunPlaces(Initial(), labels, id, None);
    if T.AlwaysFinds(Events(labels), id, false) {
      T.LastOf(Events(labels), id, None, false);
    }
  }

  /** How many tokens worker `id` takes. */
  function Taken(s: State, labels: seq<Label>, id: nat): nat
    requires Run(s, labels).Some?
    decreases |labels|
  {
    if labels == [] then 0
    else
      One(EventOf(labels[0]) != [] && T.Takes(s.threads, EventOf(labels[0])[0], id)) +
      Taken(Step(s, labels[0]).value, labels[1..], id)
  }

  lemma StepTakes(s: State, l: Label, id: nat)
    requires Step(s, l).Some? && EventOf(l) != []
    ensures var e, ts' := EventOf(l)[0], Step(s, l).value.threads;
            && (T.ToTake(s.threads, id) ==> T.Takes(s.threads, e, id) || T.ToTake(ts', id))
            && (T.Takes(s.threads, e, id) ==> T.ToTake(s.threads, id) && !T.ToTake(ts', id))
            && ((e.Work? && e.id == id ==> e.stop) && T.ToTake(ts', id) ==> T.ToTake(s.threads, id))
  {
    if l.Work? {
      WorkerMoves(s, l.id, l.message, l.stop);
    }
  }

  lemma AlwaysFindsFront(labels: seq<Label>, id: nat, stop: bool)
    requires labels != [] && T.AlwaysFinds(Events(labels), id, stop)
    ensures T.AlwaysFinds(Events(labels[1..]), id, stop)
    ensures EventOf(labels[0]) != [] ==>
              var e := EventOf(labels[0])[0]; e.Work? && e.id == id ==> e.stop == stop
  {
    EventsFront(labels);
    if EventOf(labels[0]) != [] {
      assert Events(labels)[0] in Events(labels);
      assert forall e | e in Events(labels)[1..] :: e in Events(labels);
    }
  }

  lemma {:induction false} TurnsLeft(s: State, labels: seq<Label>, id: nat)
    requires Run(s, labels).Some?
    ensures T.AlwaysFinds(Events(labels), id, true) ==> Taken(s, labels, id) <= One(T.ToTake(s.threads, id))
    ensures T.HasStopped(Run(s, labels).value.threads, id) ==> Taken(s, labels, id) >= One(T.ToTake(s.threads, id))
    decreases |labels|
  {
    hide Step, EventOf, T.Takes, T.AlwaysFinds;
    if labels != [] {
      var s' := Step(s, labels[0]).value;
      TurnsLeft(s', labels[1..], id);
      if T.AlwaysFinds(Events(labels), id, true) {
        AlwaysFindsFront(labels, id, true);
      }
      if EventOf(labels[0]) == [] {
        MainLeavesWorkers(s, labels[0]);
      } else {
        StepTakes(s, labels[0], id);
      }
    }
  }

  /** A worker that all its loop tests tell to stop takes at most one token, also if it is a pass, and no worker stops
      without having taken one. */
  lemma OneTurnIfTold(labels: seq<Label>, id: nat)
    requires Run(Initial(), labels).Some?
    ensures T.AlwaysFinds(Events(labels), id, true) ==> Taken(Initial(), labels, id) <= 1
    ensures T.HasStopped(Run(Initial(), labels).value.threads, id) ==> Taken(Initial(), labels, id) >= 1
  {
    TurnsLeft(Initial(), labels, id);
  }
}
