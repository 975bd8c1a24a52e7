/** What a run of Lab4 makes of what happens in it: the processes that are started, the messages that they generate,
    and what their loop tests find. */
module FixedRuns {
  import opened Options
  import opened RingQueue
  import opened Workers
  import opened Turns
  import opened FixedProtocol

  lemma WorkerMoves(s: State, id: nat, message: Message, stop: bool)
    requires id in s.threads && WorkerStep(s, id, message, stop).Some?
    ensures var ts := WorkerStep(s, id, message, stop).value.threads;
            id in ts && ts == s.threads[id := ts[id]] && ts[id].role == s.threads[id].role
  {
  }

  lemma StepRoles(s: State, l: Label)
    requires Step(s, l).Some?
    ensures Roles(Step(s, l).value.threads) == StartedBy(Roles(s.threads), l)
  {
    hide WorkerStep, Roles;
    match l
    case Spawn(role, id) => RolesUpdate(s.threads, id, Worker(role, Wait));
    case Work(id, message, stop) =>
      WorkerMoves(s, id, message, stop);
      RolesUpdate(s.threads, id, Step(s, l).value.threads[id]);
  }

  /** There are exactly the processes that were started, and each is what it was started as. */
  lemma {:induction false} RolesStay(s: State, labels: seq<Label>)
    requires Run(s, labels).Some?
    ensures Roles(Run(s, labels).value.threads) == Started(Roles(s.threads), labels)
    decreases |labels|
  {
    hide Step, Roles, StartedBy;
    if labels != [] {
      StepRoles(s, labels[0]);
      RolesStay(Step(s, labels[0]).value, labels[1..]);
    }
  }

  lemma StepAdds(s: State, l: Label)
    requires Step(s, l).Some?
    ensures var produced, made := Step(s, l).value.produced, GeneratedBy(Roles(s.threads), l);
            |made| <= 1 && (produced == s.produced || produced == s.produced + made)
  {
  }

  /** What has been added to the ring are messages that producers have generated, in their order. */
  lemma {:induction false} AddedAreGenerated(s: State, labels: seq<Label>)
    requires Run(s, labels).Some?
    ensures Subsequence(Run(s, labels).value.produced, s.produced + Generated(Roles(s.threads), labels))
    decreases |labels|
  {
    hide Step, Roles, GeneratedBy, Subsequence;
    if labels == [] {
      SubsequenceOfItself(s.produced);
      assert s.produced + [] == s.produced;
    } else {
      var s' := Step(s, labels[0]).value;
      AddedAreGenerated(s', labels[1..]);
      StepRoles(s, labels[0]);
      StepAdds(s, labels[0]);
      GeneratedExtends(s.produced, GeneratedBy(Roles(s.threads), labels[0]), s'.produced,
                       Run(s, labels).value.produced, Generated(Roles(s'.threads), labels[1..]));
    }
  }

  // ---- Loop tests.

  lemma StepPlaces(s: State, l: Label, id: nat, before: Option<bool>)
    requires Step(s, l).Some? && Placed(s.threads, id, before)
    ensures Placed(Step(s, l).value.threads, id, Found(l, id, before))
  {
    if l.Work? {
      WorkerMoves(s, l.id, l.message, l.stop);
    }
  }

  lemma {:induction false} RunPlaces(s: State, labels: seq<Label>, id: nat, before: Option<bool>)
    requires Run(s, labels).Some? && Placed(s.threads, id, before)
    ensures Placed(Run(s, labels).value.threads, id, Last(labels, id, before))
    decreases |labels|
  {
    hide Step, Placed, Found;
    if labels != [] {
      StepPlaces(s, labels[0], id, before);
      RunPlaces(Step(s, labels[0]).value, labels[1..], id, Found(labels[0], id, before));
    }
  }

  /** In every run a process starts at its semaphore, comes back to it only from a loop test that lets it go on, and
      stops only at one that does not. If none does not, it does not stop. */
  lemma LoopTestsDecide(ids: seq<int>, labels: seq<Label>, id: nat)
    requires Run(Initial(ids), labels).Some?
    ensures var ts := Run(Initial(ids), labels).value.threads;
            && (id in ts ==> LeftAt(ts[id].at, Last(labels, id, None)))
            && (AlwaysFinds(labels, id, false) ==> !HasStopped(ts, id))
  {
    RunPlaces(Initial(ids), labels, id, None);
    if AlwaysFinds(labels, id, false) {
      LastOf(labels, id, None, false);
    }
  }

  /** How many tokens process `id` takes. */
  function Taken(s: State, labels: seq<Label>, id: nat): nat
    requires Run(s, labels).Some?
    decreases |labels|
  {
    if labels == [] then 0
    else One(Takes(s.threads, labels[0], id)) + Taken(Step(s, labels[0]).value, labels[1..], id)
  }

  lemma StepTakes(s: State, l: Label, id: nat)
    requires Step(s, l).Some?
    ensures var ts' := Step(s, l).value.threads;
            && (ToTake(s.threads, id) ==> Takes(s.threads, l, id) || ToTake(ts', id))
            && (Takes(s.threads, l, id) ==> ToTake(s.threads, id) && !ToTake(ts', id))
            && ((l.Work? && l.id == id ==> l.stop) && ToTake(ts', id) ==> ToTake(s.threads, id))
  {
    if l.Work? {
      WorkerMoves(s, l.id, l.message, l.stop);
    }
  }

  lemma {:induction false} TurnsLeft(s: State, labels: seq<Label>, id: nat)
    requires Run(s, labels).Some?
    ensures AlwaysFinds(labels, id, true) ==> Taken(s, labels, id) <= One(ToTake(s.threads, id))
    ensures HasStopped(Run(s, labels).value.threads, id) ==> Taken(s, labels, id) >= One(ToTake(s.threads, id))
    decreases |labels|
  {
    hide Step, Takes;
    if labels != [] {
      assert labels[0] in labels && forall e | e in labels[1..] :: e in labels;
      TurnsLeft(Step(s, labels[0]).value, labels[1..], id);
      StepTakes(s, labels[0], id);
    }
  }

  /** A process that all its loop tests tell to stop takes at most one token, and no process stops without having
      taken one. */
  lemma OneTurnIfTold(ids: seq<int>, labels: seq<Label>, id: nat)
    requires Run(Initial(ids), labels).Some?
    ensures AlwaysFinds(labels, id, true) ==> Taken(Initial(ids), labels, id) <= 1
    ensures HasStopped(Run(Initial(ids), labels).value.threads, id) ==> Taken(Initial(ids), labels, id) >= 1
  {
    TurnsLeft(Initial(ids), labels, id);
  }
}
