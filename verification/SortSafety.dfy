/** The barriers of the parallel sort: what the threads take from one phase to the next. With the steps of the
    phases it follows that no step faults and every calm step keeps the invariant. */
module SortSafety {
  import opened Records
  import opened Merging
  import opened SortProtocol
  import opened SortInvariant
  import opened SortSizes

  /** A reachable state of a run with accepted arguments on a file of whole windows. */
  ghost predicate Safe(c: Config, file: seq<seq<Record>>, s: State) {
    c.Valid() && FileOf(c, file) && |file| > 0 && Inv(c, file, s)
  }

  ghost predicate AllWaiting(s: State) {
    forall t | 0 <= t < |s.pcs| :: Waiting(s.pcs[t])
  }

  /** Threads that wait together wait at the same barrier. */
  lemma WaitTogether(c: Config, s: State)
    requires SamePhase(c, s) && AllWaiting(s)
    ensures forall t | 0 <= t < |s.pcs| :: s.pcs[t] == s.pcs[0]
  {
    forall t | 0 <= t < |s.pcs| ensures s.pcs[t] == s.pcs[0] {
      assert PhaseOf(s.pcs[t]) == PhaseOf(s.pcs[0]) && Waiting(s.pcs[t]) && Waiting(s.pcs[0]);
    }
  }

  lemma OpenedTogether(c: Config, s: State)
    requires SamePhase(c, s) && AllWaiting(s)
    ensures Exec(c, s, OpenBarrier) == Ok(s.(pcs := seq(|s.pcs|, _ => Released(c, s.pcs[0]))))
  {
    WaitTogether(c, s);
    assert seq(|s.pcs|, t requires 0 <= t < |s.pcs| => Released(c, s.pcs[t]))
           == seq(|s.pcs|, _ => Released(c, s.pcs[0]));
  }

  // ---- The runs from round to round.

  lemma BothRuns(a: seq<Record>, b: seq<Record>, pair: seq<Record>)
    requires |a| == |b| && pair == a + b && Sorted(a) && Sorted(b)
    ensures RunsSorted(pair)
  {
    assert pair[..|pair| / 2] == a && pair[|pair| / 2..] == b;
  }

  /** Both runs of every pair are sorted. */
  ghost predicate AllRunsSorted(pairs: seq<seq<Record>>) {
    forall p | 0 <= p < |pairs| :: RunsSorted(pairs[p])
  }

  /** Neighbouring sorted pieces are the runs of pairs. */
  lemma RunsOfPieces(w: seq<Record>, n: nat, k: nat)
    requires n > 0 && |Chunks(w, n)| == 2 * k && AllSorted(Chunks(w, n))
    ensures AllRunsSorted(Chunks(w, 2 * n))
  {
    ChunkPairs(w, n);
    ChunkSizes(w, n);
    forall p | 0 <= p < |Chunks(w, 2 * n)| ensures RunsSorted(Chunks(w, 2 * n)[p]) {
      BothRuns(Chunks(w, n)[2 * p], Chunks(w, n)[2 * p + 1], Chunks(w, 2 * n)[p]);
    }
  }

  /** Pairs of single records are pairs of sorted runs. */
  lemma RunsOfRecords(w: seq<Record>)
    ensures AllRunsSorted(Chunks(w, 2))
  {
    ChunkSizes(w, 2);
  }

  /** Sorted blocks are the runs of the first round. */
  lemma FirstRuns(c: Config, w: seq<Record>)
    requires c.Valid() && |w| == c.recsInBuffer && AllSorted(BlocksOf(c, w))
    ensures AllRunsSorted(PairsOf(c, w, c.blocks, c.sizeOfBlock))
  {
    BlockCount(c, w);
    FirstRoundSizes(c);
    if c.Fits() && c.sizeOfBlock >= RECORD_SIZE {
      RunsOfPieces(w, c.BlockRecs(), c.blocks / 2);
    }
  }

  lemma NextPairs(c: Config, w: seq<Record>, mb: nat, ms: nat)
    requires c.Fits() && ms % RECORD_SIZE == 0 && ms >= RECORD_SIZE
    ensures PairsOf(c, w, mb, ms) == Chunks(w, 2 * (ms / RECORD_SIZE))
    ensures PairsOf(c, w, mb / 2, ms * 2) == Chunks(w, 2 * (2 * (ms / RECORD_SIZE)))
  {
    assert ms * 2 / RECORD_SIZE == 2 * (ms / RECORD_SIZE);
  }

  lemma RunsFromPairs(c: Config, w: seq<Record>, mb: nat, ms: nat, k: nat)
    requires |PairsOf(c, w, mb, ms)| == 2 * k && AllSorted(PairsOf(c, w, mb, ms))
    requires c.Fits() && ms >= RECORD_SIZE ==> ms % RECORD_SIZE == 0
    requires c.Fits() && ms < RECORD_SIZE <= ms * 2 ==> ms * 2 == RECORD_SIZE
    ensures AllRunsSorted(PairsOf(c, w, mb / 2, ms * 2))
  {
    if c.Fits() && ms >= RECORD_SIZE {
      NextPairs(c, w, mb, ms);
      RunsOfPieces(w, 2 * (ms / RECORD_SIZE), k);
    } else if c.Fits() && ms * 2 >= RECORD_SIZE {
      RunsOfRecords(w);
    }
  }

  lemma PairsInPairs(c: Config, w: seq<Record>, mb: nat, ms: nat)
    requires c.Valid() && |w| == c.recsInBuffer && RoundSizes(c, mb, ms) && mb > 2
    ensures |PairsOf(c, w, mb, ms)| == 2 * (mb / 4)
  {
    PairCount(c, w, mb, ms);
    PowerOfTwoQuarter(mb);
  }

  /** The sorted pairs of one round are the runs of the next. */
  lemma NextRuns(c: Config, w: seq<Record>, mb: nat, ms: nat)
    requires c.Valid() && |w| == c.recsInBuffer && RoundSizes(c, mb, ms) && mb > 2 && AllSorted(PairsOf(c, w, mb, ms))
    ensures AllRunsSorted(PairsOf(c, w, mb / 2, ms * 2))
  {
    PairsInPairs(c, w, mb, ms);
    if c.Fits() {
      WholeRecordsDoubled(ms);
    }
    RunsFromPairs(c, w, mb, ms, mb / 4);
  }

  /** After the last round one run is left: the whole window. */
  lemma LastRun(c: Config, w: seq<Record>, ms: nat)
    requires c.Valid() && c.Fits() && |w| == c.recsInBuffer && RoundSizes(c, 2, ms) && AllSorted(PairsOf(c, w, 2, ms))
    ensures Sorted(w)
  {
    if ms >= RECORD_SIZE {
      PairsCover(c, w, 2, ms, 1, ms / RECORD_SIZE);
      var n := 2 * (ms / RECORD_SIZE);
      assert |w| == n;
      assert w[..n] == w && w[n..] == [];
      assert Chunks(w, n)[0] == w;
    } else {
      HalvedSizes(2, ms, c.blocks, c.sizeOfBlock);
      assert |w| <= 1;
    }
  }

  // ---- Opening each barrier.

  lemma OpenStart(c: Config, s: State)
    requires c.Valid() && |s.pcs| == c.threads && BetweenInv(c, s) && EvenWindows(c, s.windows)
    requires s.sorted < |s.windows| && forall t | 0 <= t < |s.pcs| :: s.pcs[t].WaitStart?
    ensures SortingInv(c, s.(pcs := seq(|s.pcs|, _ => SortOwn)))
  {
    var s' := s.(pcs := seq(|s.pcs|, _ => SortOwn));
    BlockCount(c, s.windows[s.sorted]);
    forall b | 0 <= b < c.blocks ensures Handled(s'.pcs, s'.busy, Blocks(c, s'), b) {
    }
  }

  /** The table with which threads enter a round: nothing is free, and all resets are still to come. */
  lemma TableAtStart(pcs: seq<Pc>, busy: seq<int>, pairs: seq<seq<Record>>, mb: nat, ms: nat)
    requires |pcs| > 0 && 2 * |pairs| <= |busy| && |busy| % 2 == 0 && NoneFree(busy, 2 * |pairs|)
    requires forall t | 0 <= t < |pcs| :: pcs[t] == Reset(mb, ms, |busy|)
    requires AllRunsSorted(pairs)
    ensures RoundTable(pcs, busy, pairs)
  {
    assert pcs[0].Reset?;
    forall p | 0 <= p < |pairs| ensures Stale(pcs, p, |busy|) {
    }
  }

  lemma OpenSorted(c: Config, s: State)
    requires c.Valid() && |s.pcs| == c.threads && SortingInv(c, s) && EvenWindows(c, s.windows)
    requires forall t | 0 <= t < |s.pcs| :: s.pcs[t].WaitSorted?
    ensures RoundInv(c, s.(pcs := seq(|s.pcs|, _ => EnterRound(c, c.blocks, c.sizeOfBlock))), c.blocks, c.sizeOfBlock)
  {
    var s' := s.(pcs := seq(|s.pcs|, _ => EnterRound(c, c.blocks, c.sizeOfBlock)));
    var w, blocks := s.windows[s.sorted], Blocks(c, s);
    assert s.pcs[0].WaitSorted? && NoneFree(s.busy, |s.busy|);
    forall b | 0 <= b < |blocks| ensures Sorted(blocks[b]) {
      assert Handled(s.pcs, s.busy, blocks, b);
    }
    FirstRoundSizes(c);
    PairCount(c, w, c.blocks, c.sizeOfBlock);
    FirstRuns(c, w);
    TableAtStart(s'.pcs, s.busy, PairsOf(c, w, c.blocks, c.sizeOfBlock), c.blocks, c.sizeOfBlock);
  }

  /** When all threads wait at the end of a round, every pair has been merged. */
  lemma RoundComplete(pcs: seq<Pc>, busy: seq<int>, pairs: seq<seq<Record>>)
    requires RoundTable(pcs, busy, pairs) && |pcs| > 0 && forall t | 0 <= t < |pcs| :: pcs[t].WaitRound?
    ensures NoneFree(busy, 2 * |pairs|) && AllSorted(pairs)
  {
    forall p | 0 <= p < |pairs| ensures Sorted(pairs[p]) {
      assert !BeforePair(pcs[0], p, |busy|);
      assert Covered(pcs, busy, pairs, p);
    }
  }

  lemma OpenRound(c: Config, s: State, mb: nat, ms: nat)
    requires c.Valid() && |s.pcs| == c.threads && RoundInv(c, s, mb, ms) && EvenWindows(c, s.windows) && mb > 2
    requires forall t | 0 <= t < |s.pcs| :: s.pcs[t].WaitRound?
    ensures RoundInv(c, s.(pcs := seq(|s.pcs|, _ => EnterRound(c, mb / 2, ms * 2))), mb / 2, ms * 2)
  {
    var s' := s.(pcs := seq(|s.pcs|, _ => EnterRound(c, mb / 2, ms * 2)));
    var w := s.windows[s.sorted];
    RoundComplete(s.pcs, s.busy, Pairs(c, s, mb, ms));
    NextRoundSizes(c, mb, ms);
    PowerOfTwoHalf(mb);
    PairCount(c, w, mb / 2, ms * 2);
    NextRuns(c, w, mb, ms);
    FirstRoundSizes(c);
    TableAtStart(s'.pcs, s.busy, PairsOf(c, w, mb / 2, ms * 2), mb / 2, ms * 2);
  }

  lemma OpenLastRound(c: Config, s: State, ms: nat)
    requires c.Valid() && |s.pcs| == c.threads && RoundInv(c, s, 2, ms) && EvenWindows(c, s.windows)
    requires forall t | 0 <= t < |s.pcs| :: s.pcs[t].WaitRound?
    ensures ClosingInv(c, s.(pcs := seq(|s.pcs|, _ => Close)))
  {
    RoundComplete(s.pcs, s.busy, Pairs(c, s, 2, ms));
    if c.Fits() {
      LastRun(c, s.windows[s.sorted], ms);
    }
  }

  lemma BarrierStep(c: Config, file: seq<seq<Record>>, s: State)
    requires Safe(c, file, s) && AllWaiting(s)
    ensures Exec(c, s, OpenBarrier).Ok? && Safe(c, file, Exec(c, s, OpenBarrier).state)
  {
    WaitTogether(c, s);
    OpenedTogether(c, s);
    match s.pcs[0]
    case WaitStart =>
      assert DecidedRightly(s.pcs[0], 0, s.sorted < |s.windows|);
      OpenStart(c, s);
    case WaitSorted => OpenSorted(c, s);
    case WaitRound(mb, ms) =>
      PowerOfTwoHalf(mb);
      if mb > 2 {
        OpenRound(c, s, mb, ms);
      } else {
        OpenLastRound(c, s, ms);
      }
    case WaitWindow =>
  }

  lemma ThreadStep(c: Config, file: seq<seq<Record>>, s: State, t: nat, out: seq<Record>)
    requires Safe(c, file, s) && t < |s.pcs|
    ensures !ExecThread(c, s, t, out).Fault?
    ensures ExecThread(c, s, t, out).Ok? && Calm(c, s, Thread(t, out)) ==> Inv(c, file, ExecThread(c, s, t, out).state)
  {
    match PhaseOf(s.pcs[0])
    case Between =>
      ExitDecision(c, file, s);
      BetweenStep(c, file, s, t, out);
    case Sorting => SortingStep(c, file, s, t, out);
    case Round(_, _) => RoundStep(c, file, s, t, out);
    case Closing => ClosingStep(c, file, s, t, out);
  }

  lemma PhaseKept(c: Config, s: State, t: nat, out: seq<Record>)
    requires t < |s.pcs| && ExecThread(c, s, t, out).Ok?
    ensures |ExecThread(c, s, t, out).state.pcs| == |s.pcs|
    ensures PhaseOf(ExecThread(c, s, t, out).state.pcs[0]) == PhaseOf(s.pcs[0])
  {
  }

  /** No step in a safe state faults, and every calm step that can happen leads to a safe state. */
  lemma StepSafe(c: Config, file: seq<seq<Record>>, s: State, l: Label)
    requires Safe(c, file, s)
    ensures !Exec(c, s, l).Fault?
    ensures Exec(c, s, l).Ok? && Calm(c, s, l) ==> Safe(c, file, Exec(c, s, l).state)
  {
    match l
    case OpenBarrier =>
      if AllWaiting(s) {
        BarrierStep(c, file, s);
      }
    case Thread(t, out) =>
      if t < |s.pcs| {
        ThreadStep(c, file, s, t, out);
        if ExecThread(c, s, t, out).Ok? {
          PhaseKept(c, s, t, out);
        }
      }
  }
}
