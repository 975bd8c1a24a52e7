/** When exactly Lab6's sort sorts: the checks of `main` let sizes through with which the blocks do not fit
    the window or its records. Then no run sorts a file whose windows end with their least record. */
module SortExact {
  import opened Options
  import opened Records
  import opened Merging
  import opened SortProtocol
  import opened SortSizes
  import opened SortInvariant
  import opened SortSafety
  import opened SortProgress
  import opened SortTheorems

  /** All time marks are equal, but the last one is less. */
  ghost predicate LastIsLeast(w: seq<Record>) {
    |w| >= 2 && forall i | 0 <= i < |w| :: w[i].timeMark == if i == |w| - 1 then 0.0 else 1.0
  }

  /** Sorting a part of such a window that does not reach its last record leaves it such a window. */
  lemma SortLeavesLast(w: seq<Record>, lo: nat, out: seq<Record>)
    requires LastIsLeast(w) && lo + |out| < |w| && multiset(out) == multiset(w[lo..lo + |out|])
    ensures LastIsLeast(Splice(w, lo, out))
  {
    forall i | 0 <= i < |out| ensures out[i].timeMark == 1.0 {
      assert out[i] in multiset(w[lo..lo + |out|]);
      var j :| 0 <= j < |out| && w[lo..lo + |out|][j] == out[i];
    }
  }

  /** So no merge moves the last record, unless it is a run of its own. */
  lemma MergeLeavesLast(w: seq<Record>, lo: nat, n: nat)
    requires LastIsLeast(w) && lo + 2 * n <= |w| && (n == 1 ==> lo + 2 < |w|)
    ensures var merged := MergeRuns(w[lo..lo + n], w[lo + n..lo + 2 * n]);
            |merged| == 2 * n && Splice(w, lo, merged) == w
  {
    MergeLeaves(w[lo..lo + n], w[lo + n..lo + 2 * n]);
    assert w[lo..lo + n] + w[lo + n..lo + 2 * n] == w[lo..lo + 2 * n];
    assert w == w[..lo] + w[lo..lo + 2 * n] + w[lo + 2 * n..];
  }

  ghost predicate AllLastLeast(s: State) {
    forall i | 0 <= i < |s.windows| :: LastIsLeast(s.windows[i])
  }

  lemma SortStepLeavesLast(c: Config, s: State, t: nat, b: nat, out: seq<Record>)
    requires c.Valid() && !c.Fits() && t < |s.pcs| && b < c.blocks && AllLastLeast(s)
    requires s.sorted < |s.windows| && s.mapped == Some(s.sorted) && |s.windows[s.sorted]| == c.recsInBuffer
    ensures SortBlock(c, s, t, b, out).Ok? ==> AllLastLeast(SortBlock(c, s, t, b, out).state)
  {
    var lo := b * c.sizeOfBlock / RECORD_SIZE;
    BlockInside(c, b);
    SortBlockState(c, s, t, b, out, lo);
    if SortBlock(c, s, t, b, out).Ok? {
      SortLeavesLast(s.windows[s.sorted], lo, out);
    }
  }

  lemma SingleRecordsInside(c: Config, mb: nat, ms: nat, cur: nat, n: nat, lo: nat)
    requires c.Valid() && !c.Fits() && RoundSizes(c, mb, ms) && cur + 2 <= mb && n == ms / RECORD_SIZE && lo == cur * n
    ensures lo + 2 * n <= c.recsInBuffer && (n == 1 ==> lo + 2 < c.recsInBuffer)
  {
    PairInside(c, mb, ms, cur, n, lo);
    if ms == RECORD_SIZE {
      HalvedSizes(mb, ms, c.blocks, c.sizeOfBlock);
      DoubledToRecord(c.sizeOfBlock);
    }
  }

  lemma MergeLeavesWindows(s: State, t: nat, n: nat, lo: nat)
    requires t < |s.pcs| && s.pcs[t].MergePair? && s.sorted < |s.windows| && s.mapped == Some(s.sorted)
    requires n == s.pcs[t].mergedSize / RECORD_SIZE && lo == s.pcs[t].curBlock * n
    requires LastIsLeast(s.windows[s.sorted]) && lo + 2 * n <= |s.windows[s.sorted]|
    requires n == 1 ==> lo + 2 < |s.windows[s.sorted]|
    ensures DoMergePair(s, t).Ok? && DoMergePair(s, t).state.windows == s.windows
  {
    MergePairState(s, t, n, lo, s.sorted);
    MergeLeavesLast(s.windows[s.sorted], lo, n);
  }

  lemma MergeStepLeavesLast(c: Config, s: State, t: nat, mb: nat, ms: nat, n: nat, lo: nat)
    requires c.Valid() && !c.Fits() && RoundSizes(c, mb, ms) && AllLastLeast(s)
    requires t < |s.pcs| && s.pcs[t].MergePair? && s.pcs[t].mergedSize == ms && s.pcs[t].curBlock + 2 <= mb
    requires s.sorted < |s.windows| && s.mapped == Some(s.sorted) && |s.windows[s.sorted]| == c.recsInBuffer
    requires n == ms / RECORD_SIZE && lo == s.pcs[t].curBlock * n
    ensures DoMergePair(s, t).Ok? && DoMergePair(s, t).state.windows == s.windows
  {
    SingleRecordsInside(c, mb, ms, s.pcs[t].curBlock, n, lo);
    MergeLeavesWindows(s, t, n, lo);
  }

  lemma AtWork(c: Config, file: seq<seq<Record>>, s: State, t: nat)
    requires Safe(c, file, s) && t < |s.pcs|
    requires s.pcs[t].SortOwn? || s.pcs[t].SortClaimed? || s.pcs[t].MergePair?
    ensures s.sorted < |s.windows| && s.mapped == Some(s.sorted) && |s.windows[s.sorted]| == c.recsInBuffer
    ensures s.pcs[t].SortOwn? ==> t < c.blocks
    ensures s.pcs[t].SortClaimed? ==> s.pcs[t].curBlock < c.blocks
    ensures s.pcs[t].MergePair? ==> RoundSizes(c, s.pcs[t].mergedBlocks, s.pcs[t].mergedSize)
  {
    assert PhaseOf(s.pcs[t]) == PhaseOf(s.pcs[0]);
    if PhaseOf(s.pcs[0]).Sorting? {
      assert ClaimHeld(s.pcs[t], t, s.busy);
      assert Owns(s.pcs[t], t, if s.pcs[t].SortOwn? then t else s.pcs[t].curBlock);
    }
  }

  lemma StepLeavesLast(c: Config, file: seq<seq<Record>>, s: State, l: Label)
    requires Safe(c, file, s) && !c.Fits() && AllLastLeast(s) && Exec(c, s, l).Ok?
    ensures AllLastLeast(Exec(c, s, l).state)
  {
    if l.Thread? {
      var t := l.t;
      if s.pcs[t].SortOwn? || s.pcs[t].SortClaimed? {
        AtWork(c, file, s, t);
        SortStepLeavesLast(c, s, t, if s.pcs[t].SortOwn? then t else s.pcs[t].curBlock, l.out);
      } else if s.pcs[t].MergePair? {
        AtWork(c, file, s, t);
        ClaimsFit(c, file, s, t);
        var n := s.pcs[t].mergedSize / RECORD_SIZE;
        MergeStepLeavesLast(c, s, t, s.pcs[t].mergedBlocks, s.pcs[t].mergedSize, n, s.pcs[t].curBlock * n);
      }
    }
  }

  lemma {:induction false} RunLeavesLast(c: Config, file: seq<seq<Record>>, s: State, schedule: seq<Label>)
    requires Safe(c, file, s) && !c.Fits() && AllLastLeast(s) && CalmRun(c, s, schedule) && Run(c, s, schedule).Ok?
    ensures AllLastLeast(Run(c, s, schedule).state)
    decreases |schedule|
  {
    if schedule != [] {
      StepSafe(c, file, s, schedule[0]);
      StepLeavesLast(c, file, s, schedule[0]);
      RunLeavesLast(c, file, Exec(c, s, schedule[0]).state, schedule[1..]);
    }
  }

  lemma FinalMergeStart(windows: seq<seq<Record>>)
    requires windows != [] && forall i | 0 <= i < |windows| :: LastIsLeast(windows[i])
    ensures KWay(windows) != [] && KWay(windows)[0].timeMark == 1.0
  {
    assert LastIsLeast(windows[0]);
    SomeRunSupplies(windows, |windows|);
    var m :| Supplies(windows, |windows|, m);
    KWayStep(windows, m);
    assert LastIsLeast(windows[m]);
  }

  lemma FinalMergeHas(windows: seq<seq<Record>>, i: nat)
    requires windows != [] && i < |windows[0]|
    ensures windows[0][i] in KWay(windows)
  {
    KWayPermutes(windows);
    assert Concat(windows) == windows[0] + Concat(windows[1..]);
    assert Concat(windows)[i] == windows[0][i];
    assert windows[0][i] in multiset(KWay(windows));
  }

  /** The final merge starts with the first record of some window, although a lesser one is there. */
  lemma FinalMergeUnsorted(windows: seq<seq<Record>>)
    requires windows != [] && forall i | 0 <= i < |windows| :: LastIsLeast(windows[i])
    ensures !Sorted(KWay(windows))
  {
    var last := |windows[0]| - 1;
    assert LastIsLeast(windows[0]);
    FinalMergeStart(windows);
    FinalMergeHas(windows, last);
    var j :| 0 <= j < |KWay(windows)| && KWay(windows)[j] == windows[0][last];
    assert KWay(windows)[j].timeMark < KWay(windows)[0].timeMark;
  }

  ghost predicate FinishedSorted(c: Config, s: State, schedule: seq<Label>) {
    var end := Run(c, s, schedule);
    CalmRun(c, s, schedule) && end.Ok? && AllDone(end.state) ==>
      end.state.result.Some? && Sorted(end.state.result.value)
  }

  /** Every finished run sorts, whatever the file. */
  ghost predicate SortsEveryFile(c: Config) {
    forall file, schedule | FileOf(c, file) && |file| > 0 :: FinishedSorted(c, Initial(c, file), schedule)
  }

  /** A file for the window and file size of `c` all of whose windows end with their least record. */
  function HardFile(c: Config): (file: seq<seq<Record>>)
    requires c.size > 0
  {
    seq(c.sizeOfFile / c.size, _ => seq(c.recsInBuffer, i => Record(if i == c.recsInBuffer - 1 then 0.0 else 1.0, 0)))
  }

  lemma HardFileIsFile(c: Config)
    requires c.Valid() && c.recsInBuffer >= 2 && WholeFile(c)
    ensures FileOf(c, HardFile(c)) && |HardFile(c)| > 0
    ensures forall i | 0 <= i < |HardFile(c)| :: LastIsLeast(HardFile(c)[i])
  {
  }

  lemma DoneUnsorted(c: Config, file: seq<seq<Record>>, s: State)
    requires Safe(c, file, s) && AllDone(s) && AllLastLeast(s)
    ensures s.result.Some? && !Sorted(s.result.value)
  {
    assert s.pcs[0].Done?;
    FinalMergeUnsorted(s.windows);
  }

  lemma HardFileStaysUnsorted(c: Config)
    requires c.Valid() && c.recsInBuffer >= 2 && WholeFile(c) && !c.Fits()
    ensures !SortsEveryFile(c)
  {
    var file := HardFile(c);
    HardFileIsFile(c);
    var s := Initial(c, file);
    InitialSafe(c, file);
    var schedule := SomeRunFinishes(c, file, s);
    RunSafe(c, file, s, schedule);
    RunLeavesLast(c, file, s, schedule);
    DoneUnsorted(c, file, Run(c, s, schedule).state);
    assert !FinishedSorted(c, s, schedule);
  }

  /** Files are sorted if and only if the blocks cover the window and hold whole records, or whole parts of one. */
  lemma SortsExactly(c: Config)
    requires c.Valid() && c.recsInBuffer >= 2 && WholeFile(c)
    ensures SortsEveryFile(c) <==> c.Fits()
  {
    if c.Fits() {
      forall file, schedule | FileOf(c, file) && |file| > 0 ensures FinishedSorted(c, Initial(c, file), schedule) {
        if CalmRun(c, Initial(c, file), schedule) {
          EveryFinishedRunSorts(c, file, schedule);
        }
      }
    } else {
      HardFileStaysUnsorted(c);
    }
  }
}
