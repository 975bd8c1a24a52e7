/** The main results about the parallel sort, over all numbers of threads and all schedules. */
module SortTheorems {
  import opened Options
  import opened Records
  import opened Merging
  import opened SortProtocol
  import opened SortInvariant
  import opened SortSafety
  import opened SortProgress
  import opened SortSizes

  // ---- Every reachable state.

  lemma InitialSafe(c: Config, file: seq<seq<Record>>)
    requires c.Valid() && FileOf(c, file) && |file| > 0
    ensures Safe(c, file, Initial(c, file))
  {
    InitialInv(c, file);
  }

  lemma {:induction false} RunSafe(c: Config, file: seq<seq<Record>>, s: State, schedule: seq<Label>)
    requires Safe(c, file, s) && CalmRun(c, s, schedule)
    ensures !Run(c, s, schedule).Fault?
    ensures Run(c, s, schedule).Ok? ==> Safe(c, file, Run(c, s, schedule).state)
    decreases |schedule|
  {
    if schedule != [] {
      StepSafe(c, file, s, schedule[0]);
      if Exec(c, s, schedule[0]).Ok? {
        RunSafe(c, file, Exec(c, s, schedule[0]).state, schedule[1..]);
      }
    }
  }

  /** What a thread reads or writes next is the mapped window or the table `busy`. */
  predicate Touches(pc: Pc) {
    pc.SortOwn? || pc.ClaimBlock? || pc.SortClaimed? || pc.Reset? || pc.ClaimPair? || pc.MergePair?
  }

  /** Barrier phases: nobody touches the window or `busy` before thread 0 has put them in place or while it
      replaces them, no two threads are in different windows or rounds, and blocks that are being sorted
      at the same time are different blocks. */
  lemma PhasesApart(c: Config, file: seq<seq<Record>>, s: State, t: nat, u: nat)
    requires Safe(c, file, s) && t < |s.pcs| && u < |s.pcs|
    ensures PhaseOf(s.pcs[t]) == PhaseOf(s.pcs[u])
    ensures Touches(s.pcs[t]) ==>
              && s.mapped == Some(s.sorted) && s.sorted < |s.windows| && |s.busy| == c.blocks
              && !s.pcs[0].AtTop? && !s.pcs[0].Close? && !s.pcs[0].WriteResult?
    ensures forall b: nat, b': nat | t != u && Owns(s.pcs[t], t, b) && Owns(s.pcs[u], u, b') :: b != b'
    ensures !((s.pcs[t].AtTop? || s.pcs[t].WaitStart?) && (s.pcs[u].WriteResult? || s.pcs[u].Done?))
  {
    assert PhaseOf(s.pcs[t]) == PhaseOf(s.pcs[0]) == PhaseOf(s.pcs[u]);
    if PhaseOf(s.pcs[0]).Sorting? {
      assert ClaimHeld(s.pcs[t], t, s.busy) && ClaimHeld(s.pcs[u], u, s.busy);
    }
    if PhaseOf(s.pcs[0]).Between? {
      assert DecidedRightly(s.pcs[t], t, s.sorted < |s.windows|);
      assert DecidedRightly(s.pcs[u], u, s.sorted < |s.windows|);
    }
  }

  /** While merging, a claim is an even block whose partner belongs to the round, and the sizes fit. */
  lemma ClaimsFit(c: Config, file: seq<seq<Record>>, s: State, t: nat)
    requires Safe(c, file, s) && t < |s.pcs| && s.pcs[t].MergePair?
    ensures var mb, ms, b := s.pcs[t].mergedBlocks, s.pcs[t].mergedSize, s.pcs[t].curBlock;
            && mb * ms == c.blocks * c.sizeOfBlock && b % 2 == 0 && b + 1 < mb <= |s.busy|
            && b / 2 < |Pairs(c, s, mb, ms)| && RunsSorted(Pairs(c, s, mb, ms)[b / 2])
  {
    var mb, ms := s.pcs[t].mergedBlocks, s.pcs[t].mergedSize;
    assert PhaseOf(s.pcs[t]) == PhaseOf(s.pcs[0]) == Round(mb, ms);
    assert RoundInv(c, s, mb, ms);
    assert ClaimInRound(s.pcs[t], 2 * |Pairs(c, s, mb, ms)|);
    HalvedSizes(mb, ms, c.blocks, c.sizeOfBlock);
  }

  // ---- The written result.

  lemma {:induction false} KeptConcat(stable: bool, a: seq<seq<Record>>, b: seq<seq<Record>>)
    requires |a| == |b| && forall i | 0 <= i < |a| :: Kept(stable, a[i], b[i])
    ensures Kept(stable, Concat(a), Concat(b))
  {
    if a != [] {
      KeptConcat(stable, a[1..], b[1..]);
      if stable {
        SameByKeyConcat(a[0], Concat(a[1..]), b[0], Concat(b[1..]));
      }
    }
  }

  lemma RecordsKept(c: Config, file: seq<seq<Record>>, s: State)
    requires FileKept(c, file, s)
    ensures Kept(c.Stable(), Concat(s.windows), Concat(file))
  {
    KeptConcat(c.Stable(), s.windows, file);
  }

  /** The result is the file in order of time marks, and its stable sort if the library sorts stably. */
  ghost predicate SortedFile(c: Config, file: seq<seq<Record>>, result: Option<seq<Record>>) {
    && result.Some?
    && Sorted(result.value)
    && multiset(result.value) == multiset(Concat(file))
    && (c.stableQsort ==> StableSortOf(result.value, Concat(file)))
  }

  lemma DoneIsSorted(c: Config, file: seq<seq<Record>>, s: State)
    requires Safe(c, file, s) && AllDone(s) && c.Fits()
    ensures SortedFile(c, file, s.result)
  {
    assert s.pcs[0].Done? && DecidedRightly(s.pcs[0], 0, s.sorted < |s.windows|);
    KWayStable(s.windows);
    SameByKeyPermutes(KWay(s.windows), Concat(s.windows));
    RecordsKept(c, file, s);
  }

  /** Even if the blocks do not fit, what is written are the records of the file. */
  lemma DoneIsPermutation(c: Config, file: seq<seq<Record>>, s: State)
    requires Safe(c, file, s) && AllDone(s)
    ensures s.result.Some? && multiset(s.result.value) == multiset(Concat(file))
  {
    assert s.pcs[0].Done? && DecidedRightly(s.pcs[0], 0, s.sorted < |s.windows|);
    KWayPermutes(s.windows);
    RecordsKept(c, file, s);
  }

  /** Whatever the schedule and the number of threads: nothing faults, and when all threads are done the
      records of the file have been written, in order if the blocks fit. */
  lemma EveryFinishedRunSorts(c: Config, file: seq<seq<Record>>, schedule: seq<Label>)
    requires c.Valid() && FileOf(c, file) && |file| > 0 && CalmRun(c, Initial(c, file), schedule)
    ensures var end := Run(c, Initial(c, file), schedule);
            && !end.Fault?
            && (end.Ok? && AllDone(end.state) ==>
                  && end.state.result.Some? && multiset(end.state.result.value) == multiset(Concat(file))
                  && (c.Fits() ==> SortedFile(c, file, end.state.result)))
  {
    InitialSafe(c, file);
    RunSafe(c, file, Initial(c, file), schedule);
    var end := Run(c, Initial(c, file), schedule);
    if end.Ok? && AllDone(end.state) {
      DoneIsPermutation(c, file, end.state);
      if c.Fits() {
        DoneIsSorted(c, file, end.state);
      }
    }
  }

  /** Total correctness: every maximal run ends, and ends with the file written, sorted if the blocks fit. */
  lemma EveryMaximalRunSorts(c: Config, file: seq<seq<Record>>, run: nat -> State, choice: nat -> Label)
    requires c.Valid() && FileOf(c, file) && |file| > 0 && run(0) == Initial(c, file)
    requires forall j: nat :: AllDone(run(j)) || MovesOn(c, run(j), choice(j), run(j + 1))
    ensures exists k: nat ::
              && AllDone(run(k)) && run(k).result.Some?
              && multiset(run(k).result.value) == multiset(Concat(file))
              && (c.Fits() ==> SortedFile(c, file, run(k).result))
  {
    InitialSafe(c, file);
    var k := EveryScheduleEnds(c, file, run, choice, 0);
    DoneIsPermutation(c, file, run(k));
    if c.Fits() {
      DoneIsSorted(c, file, run(k));
    }
  }
}
