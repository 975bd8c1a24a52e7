/** The parallel sort comes to an end under every schedule: no state short of the end is stuck, and
    every step descends, although a reset frees pairs that were already claimed. */
module SortProgress {
  import opened Records
  import opened Merging
  import opened SortProtocol
  import opened SortInvariant
  import opened SortSafety

  // ---- No deadlock.

  /** `qsort` always has a result to leave. */
  lemma {:induction false} QsortPossible(stable: bool, inp: seq<Record>) returns (out: seq<Record>)
    ensures QsortResult(stable, inp, out) && StableSortOf(out, inp)
  {
    if inp == [] {
      out := [];
    } else {
      var rest := QsortPossible(stable, inp[1..]);
      out := MergeRuns([inp[0]], rest);
      MergeRunsStable([inp[0]], rest);
      SameByKeyConcat([inp[0]], rest, [inp[0]], inp[1..]);
      assert inp == [inp[0]] + inp[1..];
      assert SameByKey(out, inp);
      SameByKeyPermutes(out, inp);
      MergeRunsLength([inp[0]], rest);
    }
  }

  lemma SortPossible(c: Config, s: State, t: nat, b: nat) returns (out: seq<Record>)
    requires t < |s.pcs| && !SortBlock(c, s, t, b, []).Fault?
    ensures SortBlock(c, s, t, b, out).Ok?
  {
    var lo := b * c.sizeOfBlock / RECORD_SIZE;
    out := QsortPossible(c.stableQsort, s.windows[s.mapped.value][lo..lo + c.BlockRecs()]);
  }

  /** A thread that is neither waiting nor done can move. */
  lemma ThreadEnabled(c: Config, file: seq<seq<Record>>, s: State, t: nat) returns (out: seq<Record>)
    requires Safe(c, file, s) && t < |s.pcs| && !Waiting(s.pcs[t]) && !s.pcs[t].Done?
    ensures ExecThread(c, s, t, out).Ok?
  {
    out := [];
    ThreadStep(c, file, s, t, out);
    if s.pcs[t].SortOwn? {
      out := SortPossible(c, s, t, t);
    } else if s.pcs[t].SortClaimed? {
      out := SortPossible(c, s, t, s.pcs[t].curBlock);
    }
  }

  /** No thread waits at a barrier that another will never reach. */
  lemma NobodyStranded(c: Config, file: seq<seq<Record>>, s: State)
    requires Safe(c, file, s) && forall t | 0 <= t < |s.pcs| :: Waiting(s.pcs[t]) || s.pcs[t].Done?
    ensures AllDone(s) || AllWaiting(s)
  {
    forall t | 0 <= t < |s.pcs| ensures s.pcs[t].Done? <==> s.pcs[0].Done? {
      assert PhaseOf(s.pcs[t]) == PhaseOf(s.pcs[0]);
      if PhaseOf(s.pcs[0]).Between? {
        assert DecidedRightly(s.pcs[t], t, s.sorted < |s.windows|);
        assert DecidedRightly(s.pcs[0], 0, s.sorted < |s.windows|);
      }
    }
  }

  /** No reachable state is deadlocked: unless all threads are done, some calm step can happen. */
  lemma SomeStep(c: Config, file: seq<seq<Record>>, s: State) returns (l: Label)
    requires Safe(c, file, s) && !AllDone(s)
    ensures Exec(c, s, l).Ok? && Calm(c, s, l)
  {
    if t: nat :| t < |s.pcs| && s.pcs[t].Reset? {
      var out := ThreadEnabled(c, file, s, t);
      l := Thread(t, out);
    } else if t: nat :| t < |s.pcs| && !Waiting(s.pcs[t]) && !s.pcs[t].Done? {
      var out := ThreadEnabled(c, file, s, t);
      l := Thread(t, out);
    } else {
      l := OpenBarrier;
      NobodyStranded(c, file, s);
      BarrierStep(c, file, s);
    }
  }

  // ---- Termination.

  function Total<T>(s: seq<T>, f: T -> nat): nat {
    if s == [] then 0 else f(s[0]) + Total(s[1..], f)
  }

  lemma {:induction false} TotalUpdate<T>(s: seq<T>, f: T -> nat, i: nat, x: T)
    requires i < |s|
    ensures Total(s[i := x], f) + f(s[i]) == Total(s, f) + f(x)
  {
    if i == 0 {
      assert s[i := x][1..] == s[1..];
    } else {
      TotalUpdate(s[1..], f, i - 1, x);
      assert s[i := x][1..] == s[1..][i - 1 := x];
    }
  }

  /** What a thread may still free in `busy` before the next barrier. */
  function Rewrites(pc: Pc): nat {
    if pc.ExitTest? || pc.AtTop? then 1 else if pc.Reset? then 1 + pc.left else 0
  }

  function IsFree(owner: int): nat {
    if owner == -1 then 1 else 0
  }

  function StepsLeft(pc: Pc): nat {
    match pc
    case SortOwn => 3
    case ExitTest => 2
    case SortClaimed(_) => 2
    case MergePair(_, _, _) => 2
    case AtTop => 1
    case ClaimBlock => 1
    case ClaimPair(_, _) => 1
    case Close => 1
    case WriteResult => 1
    case _ => 0
  }

  /** How far the current window is from being closed; once it is closed the next one starts at the top. */
  function PhasesLeft(c: Config, s: State): nat
    requires |s.pcs| > 0
  {
    match PhaseOf(s.pcs[0])
    case Closing => if s.pcs[0].Close? then 0 else c.blocks + 3
    case Between => c.blocks + 2
    case Sorting => c.blocks + 1
    case Round(mb, _) => mb
  }

  /** What the steps use up, most significant first. */
  datatype Measure = Measure(windows: nat, phases: nat, rewrites: nat, free: nat, steps: nat)
  {
    predicate Below(m: Measure) {
      || windows < m.windows
      || (windows == m.windows
          && (|| phases < m.phases
              || (phases == m.phases
                  && (|| rewrites < m.rewrites
                      || (rewrites == m.rewrites
                          && (free < m.free || (free == m.free && steps < m.steps)))))))
    }
  }

  function Remains(c: Config, s: State): Measure
    requires |s.pcs| > 0
  {
    Measure(
      if s.sorted <= |s.windows| then |s.windows| - s.sorted else 0,
      PhasesLeft(c, s),
      Total(s.pcs, Rewrites),
      Total(s.busy, IsFree),
      Total(s.pcs, StepsLeft))
  }

  lemma PcDescends(c: Config, s: State, s': State, t: nat)
    requires t < |s.pcs| == |s'.pcs| && s'.pcs == s.pcs[t := s'.pcs[t]]
    requires |s'.windows| == |s.windows| && s'.sorted == s.sorted <= |s.windows|
    requires PhasesLeft(c, s') <= PhasesLeft(c, s)
    requires Rewrites(s'.pcs[t]) <= Rewrites(s.pcs[t])
    requires || Rewrites(s'.pcs[t]) < Rewrites(s.pcs[t])
             || Total(s'.busy, IsFree) < Total(s.busy, IsFree)
             || (s'.busy == s.busy && StepsLeft(s'.pcs[t]) < StepsLeft(s.pcs[t]))
    ensures Remains(c, s').Below(Remains(c, s))
  {
    TotalUpdate(s.pcs, Rewrites, t, s'.pcs[t]);
    TotalUpdate(s.pcs, StepsLeft, t, s'.pcs[t]);
  }

  lemma ClaimUses(busy: seq<int>, cur: nat, t: nat)
    requires cur < |busy| && busy[cur] == -1
    ensures Total(busy[cur := t], IsFree) < Total(busy, IsFree)
    ensures cur + 1 < |busy| ==> Total(busy[cur := t][cur + 1 := t], IsFree) < Total(busy, IsFree)
  {
    TotalUpdate(busy, IsFree, cur, t);
    if cur + 1 < |busy| {
      TotalUpdate(busy[cur := t], IsFree, cur + 1, t);
    }
  }

  lemma ClaimDescends(c: Config, s: State, t: nat, out: seq<Record>)
    requires SamePhase(c, s) && s.sorted <= |s.windows| && t < |s.pcs|
    requires (s.pcs[t].ClaimBlock? || s.pcs[t].ClaimPair?) && ExecThread(c, s, t, out).Ok?
    ensures |ExecThread(c, s, t, out).state.pcs| > 0
    ensures Remains(c, ExecThread(c, s, t, out).state).Below(Remains(c, s))
  {
    var s' := ExecThread(c, s, t, out).state;
    PhaseKept(c, s, t, out);
    assert PhaseOf(s.pcs[t]) == PhaseOf(s.pcs[0]);
    if s'.pcs[t].SortClaimed? || s'.pcs[t].MergePair? {
      ClaimUses(s.busy, s'.pcs[t].curBlock, t);
    }
    PcDescends(c, s, s', t);
  }

  /** Closing a window leaves one window less. */
  lemma CloseDescends(c: Config, s: State, out: seq<Record>)
    requires |s.pcs| > 0 && s.pcs[0].Close? && s.sorted < |s.windows|
    ensures ExecThread(c, s, 0, out).Ok? && |ExecThread(c, s, 0, out).state.pcs| > 0
    ensures Remains(c, ExecThread(c, s, 0, out).state).Below(Remains(c, s))
  {
  }

  lemma ThreadDescends(c: Config, s: State, t: nat, out: seq<Record>)
    requires SamePhase(c, s) && s.sorted <= |s.windows| && (s.pcs[0].Close? ==> s.sorted < |s.windows|)
    requires t < |s.pcs| && ExecThread(c, s, t, out).Ok?
    ensures |ExecThread(c, s, t, out).state.pcs| > 0
    ensures Remains(c, ExecThread(c, s, t, out).state).Below(Remains(c, s))
  {
    hide Total, Measure.Below;
    var s' := ExecThread(c, s, t, out).state;
    PhaseKept(c, s, t, out);
    assert PhaseOf(s.pcs[t]) == PhaseOf(s.pcs[0]);
    match s.pcs[t]
    case ClaimBlock => ClaimDescends(c, s, t, out);
    case ClaimPair(_, _) => ClaimDescends(c, s, t, out);
    case Close =>
      if t == 0 {
        CloseDescends(c, s, out);
      } else {
        PcDescends(c, s, s', t);
      }
    case _ => PcDescends(c, s, s', t);
  }

  lemma BarrierDescends(c: Config, file: seq<seq<Record>>, s: State)
    requires Safe(c, file, s) && AllWaiting(s)
    ensures Exec(c, s, OpenBarrier).Ok?
    ensures Remains(c, Exec(c, s, OpenBarrier).state).Below(Remains(c, s))
  {
    OpenedTogether(c, s);
    assert Waiting(s.pcs[0]);
  }

  /** Every step uses something up. */
  lemma StepDescends(c: Config, file: seq<seq<Record>>, s: State, l: Label)
    requires Safe(c, file, s) && Exec(c, s, l).Ok?
    ensures |Exec(c, s, l).state.pcs| > 0
    ensures Remains(c, Exec(c, s, l).state).Below(Remains(c, s))
  {
    match l
    case OpenBarrier => BarrierDescends(c, file, s);
    case Thread(t, out) =>
      ThreadDescends(c, s, t, out);
  }

  ghost predicate MovesOn(c: Config, s: State, l: Label, s': State) {
    Calm(c, s, l) && Exec(c, s, l) == Ok(s')
  }

  /** From every safe state all threads can finish. */
  lemma {:induction false} SomeRunFinishes(c: Config, file: seq<seq<Record>>, s: State) returns (schedule: seq<Label>)
    requires Safe(c, file, s)
    ensures CalmRun(c, s, schedule) && Run(c, s, schedule).Ok? && AllDone(Run(c, s, schedule).state)
    decreases Remains(c, s).windows, Remains(c, s).phases, Remains(c, s).rewrites, Remains(c, s).free,
              Remains(c, s).steps
  {
    if AllDone(s) {
      schedule := [];
    } else {
      var l := SomeStep(c, file, s);
      StepSafe(c, file, s, l);
      StepDescends(c, file, s, l);
      var rest := SomeRunFinishes(c, file, Exec(c, s, l).state);
      schedule := [l] + rest;
      assert schedule[1..] == rest;
    }
  }

  /** However the scheduler chooses, as long as it lets somebody move while anybody can, all threads finish. */
  lemma {:induction false} EveryScheduleEnds(
    c: Config, file: seq<seq<Record>>, run: nat -> State, choice: nat -> Label, i: nat) returns (k: nat)
    requires Safe(c, file, run(i))
    requires forall j: nat | j >= i :: AllDone(run(j)) || MovesOn(c, run(j), choice(j), run(j + 1))
    ensures k >= i && AllDone(run(k)) && Safe(c, file, run(k))
    decreases Remains(c, run(i)).windows, Remains(c, run(i)).phases, Remains(c, run(i)).rewrites,
              Remains(c, run(i)).free, Remains(c, run(i)).steps
  {
    if AllDone(run(i)) {
      k := i;
    } else {
      assert MovesOn(c, run(i), choice(i), run(i + 1));
      StepSafe(c, file, run(i), choice(i));
      StepDescends(c, file, run(i), choice(i));
      k := EveryScheduleEnds(c, file, run, choice, i + 1);
    }
  }
}
