/** The reset of `busy` in Lab6/src/sort_index.c is not protected by the mutex. The sort is proved for runs in
    which no thread claims a pair while a reset is halfway through it; this module says what happens
    otherwise, and when that cannot occur. */
module SortReset {
  import opened Options
  import opened Records
  import opened SortProtocol
  import opened SortSizes
  import opened SortInvariant
  import opened SortSafety
  import opened SortProgress
  import opened SortTheorems

  /** A thread is in the middle of its reset. */
  predicate Resetting(c: Config, pc: Pc) {
    pc.Reset? && 0 < pc.left < c.blocks
  }

  /** Every reset is one step to the other threads: once begun it goes on until it is done. */
  ghost predicate AtomicResets(c: Config, s: State, schedule: seq<Label>)
    decreases |schedule|
  {
    schedule == [] ||
    ((forall u | 0 <= u < |s.pcs| && Resetting(c, s.pcs[u]) :: schedule[0].Thread? && schedule[0].t == u) &&
     (Exec(c, s, schedule[0]).Ok? ==> AtomicResets(c, Exec(c, s, schedule[0]).state, schedule[1..])))
  }

  /** So all results about calm runs hold if `memset` is one step. */
  lemma {:induction false} AtomicResetsAreCalm(c: Config, s: State, schedule: seq<Label>)
    requires AtomicResets(c, s, schedule)
    ensures CalmRun(c, s, schedule)
    decreases |schedule|
  {
    if schedule != [] {
      forall cur: nat, u | 0 <= u < |s.pcs| && Halfway(s.pcs[u], c.blocks, cur)
        ensures schedule[0].Thread? && schedule[0].t == u
      {
        assert Resetting(c, s.pcs[u]);
      }
      if Exec(c, s, schedule[0]).Ok? {
        AtomicResetsAreCalm(c, Exec(c, s, schedule[0]).state, schedule[1..]);
      }
    }
  }

  /** A claim keeps the invariant if and only if no reset is halfway through the claimed pair. */
  lemma ClaimKeepsExactly(c: Config, file: seq<seq<Record>>, s: State, t: nat)
    requires Safe(c, file, s) && t < |s.pcs| && s.pcs[t].ClaimPair?
    ensures DoClaimPair(s, t).Ok?
    ensures Safe(c, file, DoClaimPair(s, t).state) <==> Calm(c, s, Thread(t, []))
  {
    var mb, ms := s.pcs[t].mergedBlocks, s.pcs[t].mergedSize;
    ClaimPairStep(c, file, s, t, mb, ms);
    assert PhaseOf(s.pcs[t]) == PhaseOf(s.pcs[0]) == Round(mb, ms);
    var cur, s' := FirstFree(s.busy, 0, mb), DoClaimPair(s, t).state;
    FirstFreeEven(s.busy, mb / 2);
    if u: nat :| cur < mb && u < |s.pcs| && Halfway(s.pcs[u], c.blocks, cur) {
      assert s'.pcs[u] == s.pcs[u] && Halfway(s'.pcs[u], |s'.busy|, 2 * (cur / 2));
      assert !ResetFits(s'.pcs[u], s'.busy);
      assert PhaseOf(s'.pcs[0]) == Round(mb, ms);
    }
  }

  ghost predicate CanFault(c: Config, s: State) {
    exists schedule :: Run(c, s, schedule).Fault?
  }

  lemma FaultsNow(c: Config, s: State, l: Label)
    requires Exec(c, s, l).Fault?
    ensures CanFault(c, s)
  {
    assert Run(c, s, [l]).Fault?;
  }

  lemma FaultsLater(c: Config, s: State, l: Label)
    requires Exec(c, s, l).Ok? && CanFault(c, Exec(c, s, l).state)
    ensures CanFault(c, s)
  {
    var rest :| Run(c, Exec(c, s, l).state, rest).Fault?;
    assert ([l] + rest)[1..] == rest;
    assert Run(c, s, [l] + rest).Fault?;
  }

  /** The first merge round of a window, on tables of any contents. */
  ghost predicate FirstRound(c: Config, s: State) {
    && c.Valid() && |s.pcs| == c.threads && |s.busy| == c.blocks
    && s.sorted < |s.windows| && s.mapped == Some(s.sorted) && |s.windows[s.sorted]| == c.recsInBuffer
  }

  ghost predicate FreeBetween(busy: seq<int>, lo: nat, hi: nat)
    requires hi <= |busy|
  {
    forall i | lo <= i < hi :: busy[i] == -1
  }

  lemma FirstFreeIs(busy: seq<int>, k: nat)
    requires k < |busy| && NoneFree(busy, k) && busy[k] == -1
    ensures FirstFree(busy, 0, |busy|) == k
  {
  }

  /** A merge at any index with a neighbour goes through. */
  lemma MergedAnywhere(c: Config, s: State, k: nat) returns (next: State)
    requires FirstRound(c, s) && s.pcs[0] == MergePair(c.blocks, c.sizeOfBlock, k) && k + 2 <= c.blocks
    ensures Exec(c, s, Thread(0, [])) == Ok(next) && FirstRound(c, next)
    ensures next.busy == s.busy && next.pcs == s.pcs[0 := ClaimPair(c.blocks, c.sizeOfBlock)]
  {
    var n := c.sizeOfBlock / RECORD_SIZE;
    FirstRoundSizes(c);
    PairInside(c, c.blocks, c.sizeOfBlock, k, n, k * n);
    MergePairState(s, 0, n, k * n, s.sorted);
    next := Exec(c, s, Thread(0, [])).state;
  }

  /** A claim at the first free index `k`, which faults at the end of the table. */
  lemma OddClaim(c: Config, s: State, k: nat)
    requires FirstRound(c, s) && s.pcs[0] == ClaimPair(c.blocks, c.sizeOfBlock)
    requires k % 2 == 1 && k < c.blocks && NoneFree(s.busy, k) && FreeBetween(s.busy, k, c.blocks)
    ensures if k + 1 == c.blocks then Exec(c, s, Thread(0, [])).Fault?
            else k + 2 <= c.blocks &&
                 Exec(c, s, Thread(0, []))
                 == Ok(s.(busy := s.busy[k := 0][k + 1 := 0], pcs := s.pcs[0 := MergePair(c.blocks, c.sizeOfBlock, k)]))
  {
    FirstFreeIs(s.busy, k);
    FirstRoundSizes(c);
  }

  lemma FaultsAfterTwo(c: Config, s: State, t: State, u: State)
    requires Exec(c, s, Thread(0, [])) == Ok(t) && Exec(c, t, Thread(0, [])) == Ok(u) && CanFault(c, u)
    ensures CanFault(c, s)
  {
    FaultsLater(c, t, Thread(0, []));
    FaultsLater(c, s, Thread(0, []));
  }

  /** Thread 0 claims and merges at an odd index that has a neighbour. */
  lemma OddTurn(c: Config, s: State, k: nat) returns (next: State)
    requires FirstRound(c, s) && s.pcs[0] == ClaimPair(c.blocks, c.sizeOfBlock)
    requires k % 2 == 1 && k + 1 < c.blocks && NoneFree(s.busy, k) && FreeBetween(s.busy, k, c.blocks)
    ensures k + 2 < c.blocks && (CanFault(c, next) ==> CanFault(c, s))
    ensures FirstRound(c, next) && next.pcs[0] == ClaimPair(c.blocks, c.sizeOfBlock)
    ensures NoneFree(next.busy, k + 2) && FreeBetween(next.busy, k + 2, c.blocks)
  {
    hide CanFault, Exec;
    OddClaim(c, s, k);
    FirstRoundSizes(c);
    var claimed := Exec(c, s, Thread(0, [])).state;
    next := MergedAnywhere(c, claimed, k);
    if CanFault(c, next) {
      FaultsAfterTwo(c, s, claimed, next);
    }
  }

  /** Once the first free index is odd, claims go on in odd pairs, until one reaches behind the table. */
  lemma {:induction false} OddClaims(c: Config, s: State, k: nat)
    requires FirstRound(c, s) && s.pcs[0] == ClaimPair(c.blocks, c.sizeOfBlock)
    requires k % 2 == 1 && k < c.blocks && NoneFree(s.busy, k) && FreeBetween(s.busy, k, c.blocks)
    ensures CanFault(c, s)
    decreases c.blocks - k
  {
    if k + 1 == c.blocks {
      OddClaim(c, s, k);
      FaultsNow(c, s, Thread(0, []));
    } else {
      var next := OddTurn(c, s, k);
      OddClaims(c, next, k + 2);
    }
  }

  /** Thread 0 finishes its reset although entry 0 has been claimed behind it. */
  lemma {:induction false} ResetGoesOn(c: Config, s: State, left: nat)
    requires FirstRound(c, s) && left < c.blocks && s.pcs[0] == Reset(c.blocks, c.sizeOfBlock, left)
    requires s.busy[0] != -1 && FreeBetween(s.busy, 1, c.blocks - left)
    ensures CanFault(c, s)
    decreases left
  {
    var next := Exec(c, s, Thread(0, [])).state;
    if left == 0 {
      OddClaims(c, next, 1);
    } else {
      ResetGoesOn(c, next, left - 1);
    }
    FaultsLater(c, s, Thread(0, []));
  }

  /** Thread 1 claims the first pair while thread 0 has cleared its first entry and not the second. */
  lemma ClaimBehindReset(c: Config, s: State)
    requires FirstRound(c, s) && c.threads >= 2 && FreeBetween(s.busy, 0, c.blocks)
    requires s.pcs[0] == Reset(c.blocks, c.sizeOfBlock, c.blocks) && s.pcs[1] == ClaimPair(c.blocks, c.sizeOfBlock)
    ensures CanFault(c, s)
  {
    var halfway := Exec(c, s, Thread(0, [])).state;
    assert Halfway(halfway.pcs[0], c.blocks, 0);
    FirstFreeIs(halfway.busy, 0);
    var claimed := Exec(c, halfway, Thread(1, [])).state;
    ResetGoesOn(c, claimed, c.blocks - 1);
    FaultsLater(c, halfway, Thread(1, []));
    FaultsLater(c, s, Thread(0, []));
  }

  lemma {:induction false} OtherResets(c: Config, s: State, left: nat)
    requires FirstRound(c, s) && c.threads >= 2 && left <= c.blocks && FreeBetween(s.busy, 0, c.blocks - left)
    requires s.pcs[0] == Reset(c.blocks, c.sizeOfBlock, c.blocks) && s.pcs[1] == Reset(c.blocks, c.sizeOfBlock, left)
    ensures CanFault(c, s)
    decreases left
  {
    var next := Exec(c, s, Thread(1, [])).state;
    if left == 0 {
      ClaimBehindReset(c, next);
    } else {
      OtherResets(c, next, left - 1);
    }
    FaultsLater(c, s, Thread(1, []));
  }

  /** The first window is still to be sorted, or is being sorted. */
  ghost predicate BeforeRounds(s: State)
    requires |s.pcs| > 0
  {
    s.sorted < |s.windows| && (PhaseOf(s.pcs[0]).Between? || PhaseOf(s.pcs[0]).Sorting?)
  }

  lemma StaysBeforeRounds(c: Config, file: seq<seq<Record>>, s: State, l: Label)
    requires Safe(c, file, s) && BeforeRounds(s) && Exec(c, s, l).Ok? && !(l.OpenBarrier? && s.pcs[0].WaitSorted?)
    ensures |Exec(c, s, l).state.pcs| > 0 && BeforeRounds(Exec(c, s, l).state)
  {
    match l
    case OpenBarrier =>
      assert Waiting(s.pcs[0]);
      OpenedTogether(c, s);
    case Thread(t, out) =>
      PhaseKept(c, s, t, out);
      assert PhaseOf(s.pcs[t]) == PhaseOf(s.pcs[0]);
  }

  /** With two threads a claim can fall halfway through a reset in the first merge round. */
  lemma {:induction false} FaultsBeforeLong(c: Config, file: seq<seq<Record>>, s: State)
    requires Safe(c, file, s) && c.threads >= 2 && BeforeRounds(s)
    ensures CanFault(c, s)
    decreases Remains(c, s).windows, Remains(c, s).phases, Remains(c, s).rewrites, Remains(c, s).free,
              Remains(c, s).steps
  {
    if AllWaiting(s) && s.pcs[0].WaitSorted? {
      OpenedTogether(c, s);
      BarrierStep(c, file, s);
      OtherResets(c, Exec(c, s, OpenBarrier).state, c.blocks);
      FaultsLater(c, s, OpenBarrier);
    } else {
      assert DecidedRightly(s.pcs[0], 0, true) || PhaseOf(s.pcs[0]).Sorting?;
      var l := SomeStep(c, file, s);
      StepSafe(c, file, s, l);
      StepDescends(c, file, s, l);
      StaysBeforeRounds(c, file, s, l);
      FaultsBeforeLong(c, file, Exec(c, s, l).state);
      FaultsLater(c, s, l);
    }
  }

  lemma {:induction false} AloneIsCalm(c: Config, s: State, schedule: seq<Label>)
    requires |s.pcs| == 1
    ensures CalmRun(c, s, schedule)
    decreases |schedule|
  {
    if schedule != [] && Exec(c, s, schedule[0]).Ok? {
      AloneIsCalm(c, Exec(c, s, schedule[0]).state, schedule[1..]);
    }
  }

  /** If stores of a reset and claims of other threads may come in any order, no run accesses memory that is
      not there, if and only if there is only one thread. */
  lemma NeverFaultsExactly(c: Config, file: seq<seq<Record>>)
    requires c.Valid() && FileOf(c, file) && |file| > 0
    ensures !CanFault(c, Initial(c, file)) <==> c.threads == 1
  {
    var s := Initial(c, file);
    InitialSafe(c, file);
    if c.threads == 1 {
      forall schedule ensures !Run(c, s, schedule).Fault? {
        AloneIsCalm(c, s, schedule);
        RunSafe(c, file, s, schedule);
      }
    } else {
      FaultsBeforeLong(c, file, s);
    }
  }
}
