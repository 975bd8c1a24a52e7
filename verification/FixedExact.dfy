/** When exactly Lab4's ring never refuses in a run of the program: when the system has handed out no
    segment with the id 0. With one, a producer that holds a token is refused sooner or later. */
module FixedExact {
  import opened Options
  import opened RingQueue
  import opened SegmentQueue
  import opened Workers
  import opened Turns
  import opened FixedProtocol
  import opened FixedTheorems

  /** Some run leads from one state to the other. */
  ghost predicate Reaches(s: State, s': State) {
    exists labels :: Run(s, labels) == Some(s')
  }

  lemma {:induction false} RunConcat(s: State, a: seq<Label>, b: seq<Label>)
    requires Run(s, a).Some?
    ensures Run(s, a + b) == Run(Run(s, a).value, b)
    decreases |a|
  {
    if a == [] {
      assert a + b == b;
    } else {
      assert (a + b)[1..] == a[1..] + b;
      RunConcat(Step(s, a[0]).value, a[1..], b);
    }
  }

  lemma ReachesStep(s: State, s': State, l: Label)
    requires Step(s, l) == Some(s')
    ensures Reaches(s, s')
  {
    assert Run(s', []) == Some(s');
    assert Run(s, [l]) == Some(s');
  }

  lemma ReachesOn(s: State, t: State, u: State)
    requires Reaches(s, t) && Reaches(t, u)
    ensures Reaches(s, u)
  {
    var a :| Run(s, a) == Some(t);
    var b :| Run(t, b) == Some(u);
    RunConcat(s, a, b);
    assert Run(s, a + b) == Some(u);
  }

  lemma ReachesWork(s: State, t: State, id: nat, m: Message)
    requires Reaches(s, t) && id in t.threads && WorkerStep(t, id, m, false).Some?
    ensures Reaches(s, WorkerStep(t, id, m, false).value)
  {
    var u := WorkerStep(t, id, m, false).value;
    ReachesStep(t, u, Work(id, m, false));
    ReachesOn(s, t, u);
  }

  /** The state after one whole turn of the loop of a process. */
  function AfterTurn(s: State, role: Role, m: Message): State
    requires Tokens(s, role) > 0
  {
    var t := MoveMessage(s, role, m);
    if role.Producer? then t.(empty := s.empty - 1, filled := s.filled + 1)
    else t.(filled := s.filled - 1, empty := s.empty + 1)
  }

  predicate AtRest(s: State, id: nat, role: Role) {
    id in s.threads && s.threads[id] == Worker(role, Wait) && s.mutex == 1
  }

  /** Half way through a turn: the message has been moved. */
  function HalfTurn(s: State, id: nat, role: Role, m: Message): State
    requires Tokens(s, role) > 0
  {
    var t := MoveMessage(s, role, m);
    (if role.Producer? then t.(empty := s.empty - 1) else t.(filled := s.filled - 1))
    .(mutex := 0, threads := s.threads[id := Worker(role, Moved)])
  }

  lemma ReachesHalf(s: State, id: nat, role: Role, m: Message)
    requires AtRest(s, id, role) && Tokens(s, role) > 0
    ensures Reaches(s, HalfTurn(s, id, role, m))
  {
    assert Run(s, []) == Some(s);
    ReachesWork(s, s, id, m);
    var s1 := WorkerStep(s, id, m, false).value;
    ReachesWork(s, s1, id, m);
    var s2 := WorkerStep(s1, id, m, false).value;
    ReachesWork(s, s2, id, m);
    assert s2.threads[id := Worker(role, Moved)] == s.threads[id := Worker(role, Moved)];
  }

  lemma ReachesTurn(s: State, id: nat, role: Role, m: Message)
    requires AtRest(s, id, role) && Tokens(s, role) > 0
    ensures Reaches(s, AfterTurn(s, role, m))
  {
    ReachesHalf(s, id, role, m);
    var s3 := HalfTurn(s, id, role, m);
    ReachesWork(s, s3, id, m);
    var s4 := WorkerStep(s3, id, m, false).value;
    ReachesWork(s, s4, id, m);
    var s5 := WorkerStep(s4, id, m, false).value;
    ReachesWork(s, s5, id, m);
    assert s5.threads[id := Worker(role, Wait)] == s.threads;
  }

  ghost predicate CanBeRefused(s: State) {
    exists s' :: Reaches(s, s') && s'.refusals > 0
  }

  lemma RefusedOn(s: State, t: State)
    requires Reaches(s, t) && CanBeRefused(t)
    ensures CanBeRefused(s)
  {
    var u :| Reaches(t, u) && u.refusals > 0;
    ReachesOn(s, t, u);
  }

  lemma RefusedNow(s: State, p: nat, m: Message)
    requires AtRest(s, p, Producer) && s.empty > 0 && (!s.slots.Usable() || s.slots.Full())
    ensures CanBeRefused(s)
  {
    ReachesTurn(s, p, Producer, m);
    assert AfterTurn(s, Producer, m).refusals > 0;
  }

  /** More empty tokens than free slots: the producers fill the ring and knock once more. */
  lemma {:induction false} TooManyTokens(s: State, p: nat, m: Message)
    requires AtRest(s, p, Producer) && s.slots.Valid() && s.empty > |s.slots.order| - |s.slots.pending|
    ensures CanBeRefused(s)
    decreases s.empty
  {
    if !s.slots.Usable() || s.slots.Full() {
      RefusedNow(s, p, m);
    } else {
      ReachesTurn(s, p, Producer, m);
      TooManyTokens(AfterTurn(s, Producer, m), p, m);
      RefusedOn(s, AfterTurn(s, Producer, m));
    }
  }

  /** Messages that come and go turn the ring until it starts at the segment 0. */
  lemma {:induction false} TurnsToZero(s: State, p: nat, c: nat, k: nat, m: Message)
    requires AtRest(s, p, Producer) && AtRest(s, c, Consumer) && s.empty > 0
    requires s.slots.pending == [] && k < |s.slots.order| && s.slots.order[k] == 0 && 0 !in s.slots.order[..k]
    ensures CanBeRefused(s)
    decreases k
  {
    var order := s.slots.order;
    if k == 0 {
      RefusedNow(s, p, m);
    } else {
      assert order[0] == order[..k][0];
      ReachesTurn(s, p, Producer, m);
      var added := AfterTurn(s, Producer, m);
      ReachesTurn(added, c, Consumer, m);
      var taken := AfterTurn(added, Consumer, m);
      ReachesOn(s, added, taken);
      assert taken.slots == Slots(order[1..] + [order[0]], []);
      assert taken.slots.order[..k - 1] == order[..k][1..];
      TurnsToZero(taken, p, c, k - 1, m);
      RefusedOn(s, taken);
    }
  }

  ghost predicate NeverRefuses(s: State) {
    forall labels :: Run(s, labels).Some? ==> Run(s, labels).value.refusals == 0
  }

  /** No run of the program is ever refused by the ring, if and only if no segment of it has the id 0. */
  lemma NeverRefusesExactly(ids: seq<int>)
    requires forall i, j | 0 <= i < j < |ids| :: ids[i] != ids[j]
    ensures NeverRefuses(Initial(ids)) <==> 0 !in ids
  {
    var s := Initial(ids);
    if 0 in ids {
      var one := s.(threads := map[0 := Worker(Producer, Wait)]);
      var two := s.(threads := one.threads[1 := Worker(Consumer, Wait)]);
      ReachesStep(s, one, Spawn(Producer, 0));
      ReachesStep(one, two, Spawn(Consumer, 1));
      ReachesOn(s, one, two);
      var m := seq(LEN_MESSAGE, _ => 0);
      if ids[0] == 0 {
        TooManyTokens(two, 0, m);
      } else {
        var k := FirstZero(ids);
        TurnsToZero(two, 0, 1, k, m);
      }
      RefusedOn(s, two);
    } else {
      InitialInv(ids);
      forall labels | Run(s, labels).Some? ensures Run(s, labels).value.refusals == 0 {
        EveryRunAgrees(s, |ids|, labels);
      }
    }
  }

  /** Tokens stand for slots and messages, no message is refused, and what was extracted is a prefix of what was
      added, the rest being in the ring. */
  ghost predicate Agrees(s: State, capacity: nat) {
    && TokensAgree(s) && Fifo(s) && s.refusals == 0 && s.consumed <= s.produced
    && |s.produced| - |s.consumed| == |s.slots.pending| <= capacity == |s.slots.order|
  }

  ghost predicate AlwaysAgrees(ids: seq<int>) {
    forall labels :: Run(Initial(ids), labels).Some? ==> Agrees(Run(Initial(ids), labels).value, |ids|)
  }

  /** In every run of the program all of this holds, if and only if no segment has the id 0. */
  lemma AlwaysAgreesExactly(ids: seq<int>)
    requires forall i, j | 0 <= i < j < |ids| :: ids[i] != ids[j]
    ensures AlwaysAgrees(ids) <==> 0 !in ids
  {
    NeverRefusesExactly(ids);
    if 0 in ids {
      var labels :| Run(Initial(ids), labels).Some? && Run(Initial(ids), labels).value.refusals != 0;
      assert !Agrees(Run(Initial(ids), labels).value, |ids|);
    } else {
      InitialInv(ids);
      forall labels | Run(Initial(ids), labels).Some? ensures Agrees(Run(Initial(ids), labels).value, |ids|) {
        EveryRunAgrees(Initial(ids), |ids|, labels);
      }
    }
  }
}
