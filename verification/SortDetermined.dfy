/** What a finished run makes of each window: the blocks are sorted and then every round is one sequential pass,
    provided that there is one thread or that passing again changes nothing in any round. */
module SortDetermined {
  import opened Options
  import opened Records
  import opened Merging
  import opened Passes
  import opened SortProtocol
  import opened SortSizes
  import opened SortInvariant
  import opened SortSafety
  import opened SortTheorems
  import opened SortPasses

  // ---- Sorting the blocks of a window, wherever they begin.

  function BlockLo(c: Config, b: nat): nat { b * c.sizeOfBlock / RECORD_SIZE }

  /** Block `b` of `w` is what `qsort` makes of that block of `w0`, or that block itself. */
  ghost predicate BlockIs(c: Config, w0: seq<Record>, w: seq<Record>, b: nat, sorted: bool) {
    var lo, hi := BlockLo(c, b), BlockLo(c, b) + c.BlockRecs();
    && hi <= |w| == |w0|
    && if sorted then QsortResult(c.stableQsort, w0[lo..hi], w[lo..hi]) else w[lo..hi] == w0[lo..hi]
  }

  ghost predicate InSomeBlock(c: Config, i: nat) {
    exists b: nat :: b < c.blocks && BlockLo(c, b) <= i < BlockLo(c, b) + c.BlockRecs()
  }

  /** The blocks of `w0` with a positive count have been sorted. */
  ghost predicate SomeSorted(c: Config, w0: seq<Record>, w: seq<Record>, counts: seq<nat>) {
    && |w| == |w0| == c.recsInBuffer && |counts| == c.blocks
    && (forall b | 0 <= b < c.blocks :: BlockIs(c, w0, w, b, counts[b] > 0))
    && (forall i | 0 <= i < |w| :: w[i] == w0[i] || InSomeBlock(c, i))
  }

  /** All blocks of `w0` have been sorted. */
  ghost predicate Sorts(c: Config, w0: seq<Record>, w: seq<Record>) {
    SomeSorted(c, w0, w, seq(c.blocks, _ => 1))
  }

  lemma FloorsAdd(x: nat, y: nat, z: nat)
    requires x + y <= z
    ensures x / RECORD_SIZE + y / RECORD_SIZE <= z / RECORD_SIZE
  {
  }

  lemma BlocksApart(c: Config, a: nat, b: nat)
    requires a < b
    ensures BlockLo(c, a) + c.BlockRecs() <= BlockLo(c, b)
  {
    MulMono(a + 1, b, c.sizeOfBlock);
    var x, y := a * c.sizeOfBlock, b * c.sizeOfBlock;
    assert x + c.sizeOfBlock == (a + 1) * c.sizeOfBlock;
    FloorsAdd(x, c.sizeOfBlock, y);
  }

  lemma QsortAgain(stable: bool, a: seq<Record>, b: seq<Record>, out: seq<Record>)
    requires QsortResult(stable, a, b) && QsortResult(stable, b, out)
    ensures QsortResult(stable, a, out)
  {
  }

  lemma SpliceElsewhere(w: seq<Record>, lo: nat, out: seq<Record>, from: nat, to: nat)
    requires lo + |out| <= |w| && from <= to <= |w| && (to <= lo || lo + |out| <= from)
    ensures Splice(w, lo, out)[from..to] == w[from..to]
  {
    var u := Splice(w, lo, out);
    forall i | from <= i < to ensures u[i] == w[i] {
      if i < lo {
        assert u[i] == w[..lo][i];
      } else {
        assert u[i] == w[lo + |out|..][i - lo - |out|];
      }
    }
    assert forall i | 0 <= i < to - from :: u[from..to][i] == u[from + i] && w[from..to][i] == w[from + i];
  }

  /** What a call of `qsort` on block `b` does to block `a`. */
  lemma BlockAfter(
    c: Config, w0: seq<Record>, w: seq<Record>, sorted: bool, a: nat, b: nat, out: seq<Record>, lo: nat)
    requires BlockIs(c, w0, w, a, sorted) && lo == BlockLo(c, b) && lo + c.BlockRecs() <= |w|
    requires QsortResult(c.stableQsort, w[lo..lo + c.BlockRecs()], out)
    ensures BlockIs(c, w0, Splice(w, lo, out), a, sorted || a == b)
  {
    if a != b {
      BlocksApart(c, if a < b then a else b, if a < b then b else a);
      SpliceElsewhere(w, lo, out, BlockLo(c, a), BlockLo(c, a) + c.BlockRecs());
    } else if sorted {
      QsortAgain(c.stableQsort, w0[lo..lo + c.BlockRecs()], w[lo..lo + c.BlockRecs()], out);
    }
  }

  lemma BlockSorted(c: Config, w0: seq<Record>, w: seq<Record>, counts: seq<nat>, b: nat, out: seq<Record>, lo: nat)
    requires SomeSorted(c, w0, w, counts) && b < c.blocks && lo == BlockLo(c, b) && lo + c.BlockRecs() <= |w|
    requires QsortResult(c.stableQsort, w[lo..lo + c.BlockRecs()], out)
    ensures SomeSorted(c, w0, Splice(w, lo, out), counts[b := counts[b] + 1])
  {
    hide BlockIs, BlockLo;
    var w', counts' := Splice(w, lo, out), counts[b := counts[b] + 1];
    forall a | 0 <= a < c.blocks ensures BlockIs(c, w0, w', a, counts'[a] > 0) {
      assert BlockIs(c, w0, w, a, counts[a] > 0);
      BlockAfter(c, w0, w, counts[a] > 0, a, b, out, lo);
    }
    forall i | 0 <= i < |w'| ensures w'[i] == w0[i] || InSomeBlock(c, i) {
      assert w[i] == w0[i] || InSomeBlock(c, i);
      assert lo <= i < lo + c.BlockRecs() || w'[i] == w[i];
    }
  }

  lemma BlockMarks(stable: bool, inp: seq<Record>, a: seq<Record>, b: seq<Record>)
    requires QsortResult(stable, inp, a) && QsortResult(stable, inp, b)
    ensures TimeMarks(a) == TimeMarks(b)
    ensures stable ==> a == b
  {
    QsortSorts(stable, inp, a);
    QsortSorts(stable, inp, b);
    SortedMarksUnique(a, b);
    if stable {
      StableSortUnique(a, b);
    }
  }

  lemma EachBlock(c: Config, w0: seq<Record>, w: seq<Record>, b: nat)
    requires Sorts(c, w0, w) && b < c.blocks
    ensures BlockIs(c, w0, w, b, true)
  {
    var ones: seq<nat> := seq(c.blocks, _ => 1);
    assert BlockIs(c, w0, w, b, ones[b] > 0);
  }

  lemma SameInside(v: seq<Record>, w: seq<Record>, lo: nat, hi: nat, i: nat)
    requires lo <= i < hi <= |v| && hi <= |w| && TimeMarks(v[lo..hi]) == TimeMarks(w[lo..hi])
    ensures v[i].timeMark == w[i].timeMark && (v[lo..hi] == w[lo..hi] ==> v[i] == w[i])
  {
    assert TimeMarks(v[lo..hi])[i - lo] == TimeMarks(w[lo..hi])[i - lo];
    assert v[lo..hi][i - lo] == v[i] && w[lo..hi][i - lo] == w[i];
  }

  lemma SameInBlock(c: Config, w0: seq<Record>, v: seq<Record>, w: seq<Record>, b: nat, i: nat)
    requires BlockIs(c, w0, v, b, true) && BlockIs(c, w0, w, b, true)
    requires BlockLo(c, b) <= i < BlockLo(c, b) + c.BlockRecs()
    ensures v[i].timeMark == w[i].timeMark && (c.stableQsort ==> v[i] == w[i])
  {
    var lo, hi := BlockLo(c, b), BlockLo(c, b) + c.BlockRecs();
    BlockMarks(c.stableQsort, w0[lo..hi], v[lo..hi], w[lo..hi]);
    SameInside(v, w, lo, hi, i);
  }

  lemma SameAt(c: Config, w0: seq<Record>, v: seq<Record>, w: seq<Record>, i: nat)
    requires Sorts(c, w0, v) && Sorts(c, w0, w) && i < |v| == |w|
    ensures v[i].timeMark == w[i].timeMark && (c.stableQsort ==> v[i] == w[i])
  {
    hide BlockIs, BlockLo;
    if InSomeBlock(c, i) {
      var b: nat :| b < c.blocks && BlockLo(c, b) <= i < BlockLo(c, b) + c.BlockRecs();
      EachBlock(c, w0, v, b);
      EachBlock(c, w0, w, b);
      SameInBlock(c, w0, v, w, b, i);
    } else {
      assert v[i] == w0[i] && w[i] == w0[i];
    }
  }

  /** The time marks of the window are then determined, and so are its records if `qsort` is stable. */
  lemma SortsMarks(c: Config, w0: seq<Record>, v: seq<Record>, w: seq<Record>)
    requires Sorts(c, w0, v) && Sorts(c, w0, w)
    ensures TimeMarks(v) == TimeMarks(w) && (c.stableQsort ==> v == w)
  {
    forall i | 0 <= i < |v| ensures v[i].timeMark == w[i].timeMark && (c.stableQsort ==> v[i] == w[i]) {
      SameAt(c, w0, v, w, i);
    }
  }

  // ---- The phase of sorting, with the number of times each block has been sorted as history.

  /** Only the current window has changed. */
  ghost predicate OthersKept(s: State, s': State) {
    |s'.windows| == |s.windows| && forall i | 0 <= i < |s.windows| && i != s.sorted :: s'.windows[i] == s.windows[i]
  }

  ghost predicate SortTracked(c: Config, w0: seq<Record>, s: State, counts: seq<nat>) {
    s.sorted < |s.windows| && SomeSorted(c, w0, s.windows[s.sorted], counts) &&
    SortingTable(s.pcs, s.busy, Marks(counts))
  }

  lemma TrackedSort(
    c: Config, w0: seq<Record>, s: State, t: nat, b: nat, out: seq<Record>, counts: seq<nat>)
    returns (after: seq<nat>)
    requires c.Valid() && SortTracked(c, w0, s, counts) && s.mapped == Some(s.sorted)
    requires t < |s.pcs| && Owns(s.pcs[t], t, b) && SortBlock(c, s, t, b, out).Ok?
    ensures SortTracked(c, w0, SortBlock(c, s, t, b, out).state, after)
    ensures OthersKept(s, SortBlock(c, s, t, b, out).state)
  {
    assert ClaimHeld(s.pcs[t], t, s.busy);
    var lo := BlockLo(c, b);
    BlockInside(c, b);
    SortBlockState(c, s, t, b, out, lo);
    after := counts[b := counts[b] + 1];
    BlockSorted(c, w0, s.windows[s.sorted], counts, b, out, lo);
    TableAfterSort(s.pcs, s.busy, Marks(counts), t, b, []);
    MarksUp(counts, b);
  }

  lemma TrackedClaim(c: Config, w0: seq<Record>, s: State, t: nat, counts: seq<nat>)
    requires SortTracked(c, w0, s, counts) && t < |s.pcs| && s.pcs[t].ClaimBlock? && DoClaimBlock(c, s, t).Ok?
    ensures SortTracked(c, w0, DoClaimBlock(c, s, t).state, counts)
    ensures DoClaimBlock(c, s, t).state.windows == s.windows
  {
    TableAfterClaim(s.pcs, s.busy, Marks(counts), t);
  }

  lemma SortTrackedStep(c: Config, file: seq<seq<Record>>, w0: seq<Record>, s: State, l: Label, counts: seq<nat>)
    returns (after: seq<nat>)
    requires Safe(c, file, s) && PhaseOf(s.pcs[0]).Sorting? && l.Thread? && Exec(c, s, l).Ok?
    requires SortTracked(c, w0, s, counts)
    ensures SortTracked(c, w0, Exec(c, s, l).state, after)
    ensures OthersKept(s, Exec(c, s, l).state)
  {
    assert PhaseOf(s.pcs[l.t]) == PhaseOf(s.pcs[0]);
    after := counts;
    match s.pcs[l.t]
    case SortOwn => after := TrackedSort(c, w0, s, l.t, l.t, l.out, counts);
    case SortClaimed(b) => after := TrackedSort(c, w0, s, l.t, b, l.out, counts);
    case ClaimBlock => TrackedClaim(c, w0, s, l.t, counts);
    case _ =>
  }

  lemma SortTrackedStart(c: Config, file: seq<seq<Record>>, s: State)
    requires Safe(c, file, s) && s.sorted < |s.windows| && s.busy == InitialBusy(c)
    requires forall t | 0 <= t < |s.pcs| :: s.pcs[t] == SortOwn
    ensures SortTracked(c, s.windows[s.sorted], s, seq(c.blocks, _ => 0))
  {
    var w, counts: seq<nat> := s.windows[s.sorted], seq(c.blocks, _ => 0);
    forall b | 0 <= b < c.blocks
      ensures BlockIs(c, w, w, b, counts[b] > 0) && Handled(s.pcs, s.busy, Marks(counts), b)
    {
      BlockInside(c, b);
    }
  }

  lemma SortTrackedEnd(c: Config, w0: seq<Record>, s: State, counts: seq<nat>)
    requires SortTracked(c, w0, s, counts) && |s.pcs| > 0 && forall t | 0 <= t < |s.pcs| :: s.pcs[t] == WaitSorted
    ensures Sorts(c, w0, s.windows[s.sorted])
  {
    assert s.pcs[0].WaitSorted?;
    forall b | 0 <= b < c.blocks ensures BlockIs(c, w0, s.windows[s.sorted], b, true) {
      assert Handled(s.pcs, s.busy, Marks(counts), b);
      MarkSays(counts[b]);
      assert BlockIs(c, w0, s.windows[s.sorted], b, counts[b] > 0);
    }
  }

  // ---- The rounds.

  /** What the rounds from this one on make of a window, if each is one pass. */
  ghost function After(w: seq<Record>, mb: nat, ms: nat): seq<Record>
    decreases mb
  {
    if mb <= 1 then w else After(Pass(w, ms / RECORD_SIZE, mb / 2), mb / 2, ms * 2)
  }

  /** In each of these rounds a second pass would change nothing. */
  ghost predicate AllIdle(w: seq<Record>, mb: nat, ms: nat)
    decreases mb
  {
    mb <= 1 ||
    (SecondPassIdle(w, ms / RECORD_SIZE, mb / 2) && AllIdle(Pass(w, ms / RECORD_SIZE, mb / 2), mb / 2, ms * 2))
  }

  /** Passing again matters in no round, or cannot happen. */
  ghost predicate Settled(c: Config, w0: seq<Record>) {
    c.threads == 1 || forall w | Sorts(c, w0, w) :: AllIdle(w, c.blocks, c.sizeOfBlock)
  }

  /** `v` is what becomes of `w0`: its blocks are sorted, and then every round makes one pass. */
  ghost predicate Becomes(c: Config, w0: seq<Record>, v: seq<Record>) {
    exists w :: Sorts(c, w0, w) && v == After(w, c.blocks, c.sizeOfBlock)
  }

  /** This round begins with `v`. */
  ghost predicate Begins(c: Config, w0: seq<Record>, v: seq<Record>, mb: nat, ms: nat) {
    && (c.threads == 1 || AllIdle(v, mb, ms))
    && Becomes(c, w0, After(v, mb, ms))
  }

  ghost predicate RoundHistory(
    c: Config, w0: seq<Record>, s0: State, s: State, mb: nat, ms: nat, counts: seq<nat>)
    requires |s.pcs| > 0
  {
    && s0.sorted < |s0.windows| && Begins(c, w0, s0.windows[s0.sorted], mb, ms)
    && Tracked(s0, s, mb, ms / RECORD_SIZE, counts)
    && (c.threads == 1 ==> OnceEach(s.pcs[0], s.busy, counts))
  }

  /** What is known of the current window, which was `w0`. */
  ghost predicate CurrentKnown(c: Config, w0: seq<Record>, s: State)
    requires |s.pcs| > 0 && s.sorted < |s.windows|
  {
    match PhaseOf(s.pcs[0])
    case Between => s.windows[s.sorted] == w0
    case Sorting => exists counts :: SortTracked(c, w0, s, counts)
    case Round(mb, ms) => exists s0, counts :: RoundHistory(c, w0, s0, s, mb, ms, counts)
    case Closing => if s.pcs[0].Close? then Becomes(c, w0, s.windows[s.sorted]) else s.windows[s.sorted] == w0
  }

  ghost predicate Known(c: Config, file: seq<seq<Record>>, s: State) {
    && |s.pcs| > 0 && |s.windows| == |file|
    && (forall i | 0 <= i < |file| && i < s.sorted :: Becomes(c, file[i], s.windows[i]))
    && (forall i | s.sorted < i < |file| :: s.windows[i] == file[i])
    && (s.sorted < |file| ==> CurrentKnown(c, file[s.sorted], s))
  }

  lemma KnownStill(c: Config, file: seq<seq<Record>>, s: State, s': State)
    requires Known(c, file, s) && s.sorted == s'.sorted && OthersKept(s, s') && |s'.pcs| > 0
    requires s.sorted < |file| ==> CurrentKnown(c, file[s.sorted], s')
    ensures Known(c, file, s')
  {
  }

  /** A step outside sorting and merging. */
  lemma KnownOutside(c: Config, file: seq<seq<Record>>, s: State, l: Label)
    requires Safe(c, file, s) && Known(c, file, s) && l.Thread? && Exec(c, s, l).Ok?
    requires PhaseOf(s.pcs[0]).Between? || PhaseOf(s.pcs[0]).Closing?
    ensures Known(c, file, Exec(c, s, l).state)
  {
    hide Becomes, SortTracked, RoundHistory;
    assert PhaseOf(s.pcs[l.t]) == PhaseOf(s.pcs[0]);
  }

  lemma KnownSorting(c: Config, file: seq<seq<Record>>, s: State, l: Label)
    requires Safe(c, file, s) && Known(c, file, s) && l.Thread? && Exec(c, s, l).Ok? && PhaseOf(s.pcs[0]).Sorting?
    ensures Known(c, file, Exec(c, s, l).state)
  {
    var w0, s' := file[s.sorted], Exec(c, s, l).state;
    var counts :| SortTracked(c, w0, s, counts);
    var after := SortTrackedStep(c, file, w0, s, l, counts);
    PhaseKept(c, s, l.t, l.out);
    assert SortTracked(c, w0, s', after);
    KnownStill(c, file, s, s');
  }

  lemma HistoryStep(
    c: Config, file: seq<seq<Record>>, w0: seq<Record>, s0: State, s: State, l: Label, mb: nat, ms: nat,
    counts: seq<nat>)
    requires Safe(c, file, s) && RoundHistory(c, w0, s0, s, mb, ms, counts) && PhaseOf(s.pcs[0]) == Round(mb, ms)
    requires l.Thread? && Calm(c, s, l) && Exec(c, s, l).Ok?
    ensures |Exec(c, s, l).state.pcs| > 0
    ensures RoundHistory(c, w0, s0, Exec(c, s, l).state, mb, ms, CountsAfter(s, l, counts))
    ensures Exec(c, s, l).state.sorted == s.sorted && OthersKept(s, Exec(c, s, l).state)
  {
    hide Begins;
    TrackedStep(c, file, s0, s, l, mb, ms, counts);
    PhaseKept(c, s, l.t, l.out);
    if c.threads == 1 {
      OnceEachStep(c, file, s, l, mb, ms, counts);
    }
  }

  lemma KnownRound(c: Config, file: seq<seq<Record>>, s: State, l: Label, mb: nat, ms: nat)
    requires Safe(c, file, s) && Known(c, file, s) && l.Thread? && Calm(c, s, l) && Exec(c, s, l).Ok?
    requires PhaseOf(s.pcs[0]) == Round(mb, ms)
    ensures Known(c, file, Exec(c, s, l).state)
  {
    hide RoundHistory;
    var w0, s' := file[s.sorted], Exec(c, s, l).state;
    var s0, counts :| RoundHistory(c, w0, s0, s, mb, ms, counts);
    HistoryStep(c, file, w0, s0, s, l, mb, ms, counts);
    PhaseKept(c, s, l.t, l.out);
    KnownStill(c, file, s, s');
  }

  // ---- The barriers.

  /** The state after a barrier that all threads wait at. */
  lemma PastBarrier(c: Config, file: seq<seq<Record>>, s: State) returns (s': State)
    requires Safe(c, file, s) && AllWaiting(s)
    ensures Exec(c, s, OpenBarrier) == Ok(s') && Safe(c, file, s') && |s'.pcs| == |s.pcs| > 0
    ensures s' == s.(pcs := s'.pcs)
    ensures forall t | 0 <= t < |s.pcs| :: s.pcs[t] == s.pcs[0] && s'.pcs[t] == Released(c, s.pcs[0])
  {
    WaitTogether(c, s);
    OpenedTogether(c, s);
    BarrierStep(c, file, s);
    s' := Exec(c, s, OpenBarrier).state;
  }

  lemma HistoryStart(c: Config, file: seq<seq<Record>>, w0: seq<Record>, s: State, mb: nat, ms: nat)
    requires Safe(c, file, s) && AtRoundStart(c, s, mb, ms) && s.sorted < |s.windows|
    requires Begins(c, w0, s.windows[s.sorted], mb, ms)
    ensures RoundHistory(c, w0, s, s, mb, ms, seq(mb / 2, _ => 0))
  {
    TrackedStart(c, file, s, mb, ms);
    assert s.pcs[0].Reset?;
  }

  lemma KnownFirstRound(c: Config, file: seq<seq<Record>>, w0: seq<Record>, s: State, counts: seq<nat>, s': State)
    requires Safe(c, file, s') && SortTracked(c, w0, s, counts) && Settled(c, w0)
    requires |s.pcs| > 0 && forall t | 0 <= t < |s.pcs| :: s.pcs[t] == WaitSorted
    requires s' == s.(pcs := s'.pcs) && AtRoundStart(c, s', c.blocks, c.sizeOfBlock) && |s'.pcs| > 0
    ensures CurrentKnown(c, w0, s')
  {
    SortTrackedEnd(c, w0, s, counts);
    HistoryStart(c, file, w0, s', c.blocks, c.sizeOfBlock);
    assert s'.pcs[0].Reset?;
  }

  lemma NextBegins(c: Config, w0: seq<Record>, v: seq<Record>, mb: nat, ms: nat)
    requires Begins(c, w0, v, mb, ms) && mb > 1
    ensures Begins(c, w0, Pass(v, ms / RECORD_SIZE, mb / 2), mb / 2, ms * 2)
    ensures mb == 2 ==> Becomes(c, w0, Pass(v, ms / RECORD_SIZE, mb / 2))
  {
  }

  lemma RoundEnds(
    c: Config, w0: seq<Record>, s0: State, s: State, mb: nat, ms: nat, counts: seq<nat>)
    requires mb > 1 && |s.pcs| > 0 && RoundHistory(c, w0, s0, s, mb, ms, counts)
    requires forall t | 0 <= t < |s.pcs| :: s.pcs[t] == WaitRound(mb, ms)
    ensures s.sorted < |s.windows| && Begins(c, w0, s.windows[s.sorted], mb / 2, ms * 2)
    ensures mb == 2 ==> Becomes(c, w0, s.windows[s.sorted])
  {
    RoundMerged(c, s0, s, mb, ms, counts);
    NextBegins(c, w0, s0.windows[s0.sorted], mb, ms);
  }

  lemma KnownNextRound(
    c: Config, file: seq<seq<Record>>, w0: seq<Record>, s0: State, s: State, mb: nat, ms: nat, counts: seq<nat>,
    s': State)
    requires Safe(c, file, s') && |s.pcs| > 0 && RoundHistory(c, w0, s0, s, mb, ms, counts)
    requires mb > 1 && mb % 2 == 0 && forall t | 0 <= t < |s.pcs| :: s.pcs[t] == WaitRound(mb, ms)
    requires s' == s.(pcs := s'.pcs) && |s'.pcs| == |s.pcs|
    requires forall t | 0 <= t < |s'.pcs| :: s'.pcs[t] == EnterRound(c, mb / 2, ms * 2)
    ensures s.sorted < |s.windows| && CurrentKnown(c, w0, s')
  {
    RoundEnds(c, w0, s0, s, mb, ms, counts);
    if mb > 2 {
      HistoryStart(c, file, w0, s', mb / 2, ms * 2);
      assert s'.pcs[0].Reset?;
    } else {
      assert s'.pcs[0].Close?;
    }
  }

  /** What the threads know when they pass a barrier. */
  lemma KnownBarrier(c: Config, file: seq<seq<Record>>, s: State)
    requires Safe(c, file, s) && Known(c, file, s) && AllWaiting(s)
    requires forall i | 0 <= i < |file| :: Settled(c, file[i])
    ensures Exec(c, s, OpenBarrier).Ok? && Known(c, file, Exec(c, s, OpenBarrier).state)
  {
    var s' := PastBarrier(c, file, s);
    if s.sorted < |file| {
      var w0 := file[s.sorted];
      match s.pcs[0]
      case WaitStart =>
        SortTrackedStart(c, file, s');
        assert s'.pcs[0].SortOwn?;
      case WaitSorted =>
        var counts :| SortTracked(c, w0, s, counts);
        KnownFirstRound(c, file, w0, s, counts, s');
      case WaitRound(mb, ms) =>
        PowerOfTwoHalf(mb);
        var s0, counts :| RoundHistory(c, w0, s0, s, mb, ms, counts);
        KnownNextRound(c, file, w0, s0, s, mb, ms, counts, s');
      case WaitWindow =>
        assert s'.pcs[0].ExitTest?;
    }
    KnownStill(c, file, s, s');
  }

  lemma KnownStep(c: Config, file: seq<seq<Record>>, s: State, l: Label)
    requires Safe(c, file, s) && Known(c, file, s) && Calm(c, s, l) && Exec(c, s, l).Ok?
    requires forall i | 0 <= i < |file| :: Settled(c, file[i])
    ensures Known(c, file, Exec(c, s, l).state)
  {
    match l
    case OpenBarrier => KnownBarrier(c, file, s);
    case Thread(_, _) =>
      match PhaseOf(s.pcs[0])
      case Sorting => KnownSorting(c, file, s, l);
      case Round(mb, ms) => KnownRound(c, file, s, l, mb, ms);
      case _ => KnownOutside(c, file, s, l);
  }

  lemma {:induction false} KnownRun(c: Config, file: seq<seq<Record>>, s: State, schedule: seq<Label>)
    requires Safe(c, file, s) && Known(c, file, s) && CalmRun(c, s, schedule) && Run(c, s, schedule).Ok?
    requires forall i | 0 <= i < |file| :: Settled(c, file[i])
    ensures Safe(c, file, Run(c, s, schedule).state) && Known(c, file, Run(c, s, schedule).state)
    decreases |schedule|
  {
    hide Safe, Known;
    if schedule != [] {
      StepSafe(c, file, s, schedule[0]);
      KnownStep(c, file, s, schedule[0]);
      KnownRun(c, file, Exec(c, s, schedule[0]).state, schedule[1..]);
    }
  }

  lemma DoneKnown(c: Config, file: seq<seq<Record>>, s: State)
    requires Safe(c, file, s) && Known(c, file, s) && AllDone(s)
    ensures s.result == Some(KWay(s.windows)) && |s.windows| == |file|
    ensures forall i | 0 <= i < |file| :: Becomes(c, file[i], s.windows[i])
  {
    assert s.pcs[0].Done? && DecidedRightly(s.pcs[0], 0, s.sorted < |s.windows|);
  }

  /** Whatever the schedule, the result is the final merge of what the windows become. */
  lemma WindowsDetermined(c: Config, file: seq<seq<Record>>, schedule: seq<Label>) returns (windows: seq<seq<Record>>)
    requires c.Valid() && FileOf(c, file) && |file| > 0 && forall i | 0 <= i < |file| :: Settled(c, file[i])
    requires CalmRun(c, Initial(c, file), schedule)
    requires Run(c, Initial(c, file), schedule).Ok? && AllDone(Run(c, Initial(c, file), schedule).state)
    ensures |windows| == |file| && forall i | 0 <= i < |file| :: Becomes(c, file[i], windows[i])
    ensures Run(c, Initial(c, file), schedule).state.result == Some(KWay(windows))
  {
    InitialSafe(c, file);
    KnownRun(c, file, Initial(c, file), schedule);
    DoneKnown(c, file, Run(c, Initial(c, file), schedule).state);
    windows := Run(c, Initial(c, file), schedule).state.windows;
  }

  // ---- What windows become is determined.

  lemma {:induction false} AfterMarks(v: seq<Record>, w: seq<Record>, mb: nat, ms: nat)
    requires TimeMarks(v) == TimeMarks(w)
    ensures TimeMarks(After(v, mb, ms)) == TimeMarks(After(w, mb, ms))
    decreases mb
  {
    if mb > 1 {
      PassMarks(v, w, ms / RECORD_SIZE, mb / 2);
      AfterMarks(Pass(v, ms / RECORD_SIZE, mb / 2), Pass(w, ms / RECORD_SIZE, mb / 2), mb / 2, ms * 2);
    }
  }

  lemma BecomesAlike(c: Config, w0: seq<Record>, v: seq<Record>, w: seq<Record>)
    requires Becomes(c, w0, v) && Becomes(c, w0, w)
    ensures TimeMarks(v) == TimeMarks(w) && (c.stableQsort ==> v == w)
  {
    var v1 :| Sorts(c, w0, v1) && v == After(v1, c.blocks, c.sizeOfBlock);
    var w1 :| Sorts(c, w0, w1) && w == After(w1, c.blocks, c.sizeOfBlock);
    SortsMarks(c, w0, v1, w1);
    AfterMarks(v1, w1, c.blocks, c.sizeOfBlock);
  }

  /** Finished runs under the calm schedules `a` and `b` write the same. */
  ghost predicate Agree(c: Config, file: seq<seq<Record>>, a: seq<Label>, b: seq<Label>) {
    var s := Initial(c, file);
    CalmRun(c, s, a) && CalmRun(c, s, b) &&
    Run(c, s, a).Ok? && AllDone(Run(c, s, a).state) && Run(c, s, b).Ok? && AllDone(Run(c, s, b).state) ==>
      var one, two := Run(c, s, a).state.result, Run(c, s, b).state.result;
      one.Some? && two.Some? && TimeMarks(one.value) == TimeMarks(two.value) && (c.stableQsort ==> one == two)
  }

  lemma SettledAgree(c: Config, file: seq<seq<Record>>, a: seq<Label>, b: seq<Label>)
    requires c.Valid() && FileOf(c, file) && |file| > 0 && forall i | 0 <= i < |file| :: Settled(c, file[i])
    ensures Agree(c, file, a, b)
  {
    var s := Initial(c, file);
    if CalmRun(c, s, a) && CalmRun(c, s, b) && Run(c, s, a).Ok? && AllDone(Run(c, s, a).state)
       && Run(c, s, b).Ok? && AllDone(Run(c, s, b).state) {
      var one := WindowsDetermined(c, file, a);
      var two := WindowsDetermined(c, file, b);
      forall i | 0 <= i < |file|
        ensures TimeMarks(one[i]) == TimeMarks(two[i]) && (c.stableQsort ==> one[i] == two[i])
      {
        BecomesAlike(c, file[i], one[i], two[i]);
      }
      KWayMarks(one, two);
      if c.stableQsort {
        assert one == two;
      }
    }
  }
}
