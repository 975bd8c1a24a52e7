/** Sizes with which every run of every merge round is sorted when the round begins, although the blocks need not
    cover the window: passing again matters in no round. */
module SortRegular {
  import opened Records
  import opened Passes
  import opened SortProtocol
  import opened SortSizes
  import opened SortDetermined

  /** As soon as runs hold records, a run of a later round is just two runs of the round before. */
  predicate EvenRuns(mb: nat, ms: nat)
    decreases mb
  {
    mb <= 2 || ((ms < RECORD_SIZE || ms % RECORD_SIZE < RECORD_SIZE / 2) && EvenRuns(mb / 2, ms * 2))
  }

  /** Blocks of several records begin at the records where the runs of the first round do. */
  predicate BlocksAreRuns(c: Config) {
    c.BlockRecs() <= 1 || (c.blocks - 1) * (c.sizeOfBlock % RECORD_SIZE) < RECORD_SIZE
  }

  predicate Regular(c: Config) {
    BlocksAreRuns(c) && EvenRuns(c.blocks, c.sizeOfBlock)
  }

  /** Where the blocks fit, sizes are regular. */
  lemma {:induction false} WholeRecordsEven(mb: nat, ms: nat)
    requires WholeRecords(ms)
    ensures EvenRuns(mb, ms)
    decreases mb
  {
    if mb > 2 {
      WholeRecordsDoubled(ms);
      WholeRecordsEven(mb / 2, ms * 2);
    }
  }

  lemma FittingIsRegular(c: Config)
    requires c.Fits()
    ensures Regular(c)
  {
    WholeRecordsEven(c.blocks, c.sizeOfBlock);
  }

  ghost predicate RunSorted(w: seq<Record>, n: nat, b: nat) {
    b * n + n <= |w| && Sorted(w[b * n..b * n + n])
  }

  lemma RunShifted(w: seq<Record>, n: nat, b: nat)
    requires 2 * n <= |w| && RunSorted(w, n, b + 2)
    ensures RunSorted(w[2 * n..], n, b)
  {
    var lo := b * n;
    assert (b + 2) * n == lo + 2 * n;
    assert w[2 * n..][lo..lo + n] == w[lo + 2 * n..lo + 3 * n];
  }

  lemma FirstRunsSorted(w: seq<Record>, n: nat)
    requires RunSorted(w, n, 0) && RunSorted(w, n, 1)
    ensures 2 * n <= |w| && Sorted(w[..n]) && Sorted(w[n..2 * n])
  {
    assert 0 * n == 0 && 1 * n == n;
  }

  lemma {:induction false} RunsReady(w: seq<Record>, n: nat, k: nat)
    requires forall b: nat | b < 2 * k :: RunSorted(w, n, b)
    ensures Ready(w, n, k)
    decreases k
  {
    if k > 0 {
      FirstRunsSorted(w, n);
      forall b: nat | b < 2 * (k - 1) ensures RunSorted(w[2 * n..], n, b) {
        RunShifted(w, n, b);
      }
      RunsReady(w[2 * n..], n, k - 1);
    }
  }

  lemma BlockIsRun(b: nat, s: nat, n: nat, r: nat)
    requires s == n * RECORD_SIZE + r && b * r < RECORD_SIZE
    ensures b * s / RECORD_SIZE == b * n
  {
    var x, y := b * n, b * r;
    assert b * s == b * (n * RECORD_SIZE) + y == x * RECORD_SIZE + y;
  }

  lemma RunOfBlock(c: Config, w0: seq<Record>, w: seq<Record>, b: nat, r: nat)
    requires Sorts(c, w0, w) && b < c.blocks
    requires r == c.sizeOfBlock % RECORD_SIZE && (c.blocks - 1) * r < RECORD_SIZE
    ensures RunSorted(w, c.BlockRecs(), b)
  {
    var lo, hi := BlockLo(c, b), BlockLo(c, b) + c.BlockRecs();
    MulMono(b, c.blocks - 1, r);
    BlockIsRun(b, c.sizeOfBlock, c.BlockRecs(), r);
    EachBlock(c, w0, w, b);
    QsortSorts(c.stableQsort, w0[lo..hi], w[lo..hi]);
  }

  lemma RunsFit(mb: nat, ms: nat, records: nat)
    requires mb * ms <= records * RECORD_SIZE && ms >= RECORD_SIZE
    ensures mb <= records
  {
    MulMono(RECORD_SIZE, ms, mb);
    assert RECORD_SIZE * mb <= ms * mb == mb * ms;
  }

  lemma FirstRoundReady(c: Config, w0: seq<Record>, w: seq<Record>)
    requires c.Valid() && BlocksAreRuns(c) && Sorts(c, w0, w) && c.sizeOfBlock >= RECORD_SIZE
    ensures Ready(w, c.BlockRecs(), c.blocks / 2)
  {
    FirstRoundSizes(c);
    if c.BlockRecs() == 1 {
      BlocksInWindow(c);
      RunsFit(c.blocks, c.sizeOfBlock, |w|);
      SinglesReady(w, c.blocks / 2);
    } else {
      forall b: nat | b < 2 * (c.blocks / 2) ensures RunSorted(w, c.BlockRecs(), b) {
        RunOfBlock(c, w0, w, b, c.sizeOfBlock % RECORD_SIZE);
      }
      RunsReady(w, c.BlockRecs(), c.blocks / 2);
    }
  }

  lemma TwoRuns(ms: nat)
    ensures ms % RECORD_SIZE < RECORD_SIZE / 2 ==> ms * 2 / RECORD_SIZE == 2 * (ms / RECORD_SIZE)
    ensures ms < RECORD_SIZE <= ms * 2 ==> ms * 2 / RECORD_SIZE == 1
  {
  }

  lemma {:induction false} FirstReady(w: seq<Record>, mb: nat, ms: nat, j: nat)
    requires ms < RECORD_SIZE <= ms * 2 && mb * ms <= |w| * RECORD_SIZE && mb == 4 * j
    ensures Ready(Pass(w, 0, 2 * j), 1, j)
  {
    EmptyPass(w, 2 * j);
    HalvedAndDoubled(mb, mb / 2, ms);
    RunsFit(mb / 2, ms * 2, |w|);
    SinglesReady(w, j);
  }

  /** The runs of the next round are sorted as well. */
  lemma {:induction false} NextReady(w: seq<Record>, mb: nat, ms: nat)
    requires PowerOfTwo(mb) && mb >= 2 && EvenRuns(mb, ms) && mb * ms <= |w| * RECORD_SIZE
    requires ms >= RECORD_SIZE ==> Ready(w, ms / RECORD_SIZE, mb / 2)
    ensures ms * 2 >= RECORD_SIZE ==> Ready(Pass(w, ms / RECORD_SIZE, mb / 2), ms * 2 / RECORD_SIZE, mb / 2 / 2)
  {
    PowerOfTwoHalf(mb);
    if mb > 2 && ms * 2 >= RECORD_SIZE {
      PowerOfTwoQuarter(mb);
      TwoRuns(ms);
      if ms >= RECORD_SIZE {
        ReadyAgain(w, ms / RECORD_SIZE, mb / 4);
      } else {
        FirstReady(w, mb, ms, mb / 4);
      }
    }
  }

  lemma {:induction false} ReadyRoundsIdle(w: seq<Record>, mb: nat, ms: nat)
    requires PowerOfTwo(mb) && EvenRuns(mb, ms) && mb * ms <= |w| * RECORD_SIZE
    requires ms >= RECORD_SIZE ==> Ready(w, ms / RECORD_SIZE, mb / 2)
    ensures AllIdle(w, mb, ms)
    decreases mb
  {
    if mb > 1 {
      var n := ms / RECORD_SIZE;
      PowerOfTwoHalf(mb);
      if ms >= RECORD_SIZE {
        ReadyIdle(w, n, mb / 2);
      } else {
        EmptyPass(w, mb / 2);
      }
      NextReady(w, mb, ms);
      PassLength(w, n, mb / 2);
      HalvedAndDoubled(mb, mb / 2, ms);
      ReadyRoundsIdle(Pass(w, n, mb / 2), mb / 2, ms * 2);
    }
  }

  lemma RegularSettled(c: Config, w0: seq<Record>)
    requires c.Valid() && Regular(c)
    ensures Settled(c, w0)
  {
    forall w | Sorts(c, w0, w) ensures AllIdle(w, c.blocks, c.sizeOfBlock) {
      BlocksInWindow(c);
      if c.sizeOfBlock >= RECORD_SIZE {
        FirstRoundReady(c, w0, w);
      }
      ReadyRoundsIdle(w, c.blocks, c.sizeOfBlock);
    }
  }
}
