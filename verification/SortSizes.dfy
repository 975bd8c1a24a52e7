/** The sizes with which Lab6/src/sort_index.c computes block and run positions, in bytes and in records. */
module SortSizes {
  import opened Records
  import opened Merging
  import opened SortProtocol

  lemma MulMono(a: nat, b: nat, k: nat)
    requires a <= b
    ensures a * k <= b * k
  {
    assert (b - a) * k >= 0;
  }

  lemma BlocksInWindow(c: Config)
    requires c.Valid()
    ensures c.blocks * c.sizeOfBlock <= c.size
  {
    assert c.size == c.sizeOfBlock * c.blocks + c.size % c.blocks;
  }

  /** `ms` comes from `s` by doubling. */
  ghost predicate Doubled(s: nat, ms: nat)
    decreases ms
  {
    ms == s || (ms > s && ms % 2 == 0 && Doubled(s, ms / 2))
  }

  lemma DoubledToRecord(s: nat)
    requires Doubled(s, RECORD_SIZE)
    ensures WholeRecords(s)
  {
    assert s == 16 || Doubled(s, 8);
    assert s == 16 || s == 8 || Doubled(s, 4);
    assert s == 16 || s == 8 || s == 4 || Doubled(s, 2);
    assert s == 16 || s == 8 || s == 4 || s == 2 || Doubled(s, 1);
  }

  lemma DoubledAgain(s: nat, ms: nat)
    requires Doubled(s, ms)
    ensures Doubled(s, ms * 2)
  {
    assert (ms * 2) / 2 == ms;
  }

  lemma WholeRecordsDoubled(ms: nat)
    requires WholeRecords(ms)
    ensures WholeRecords(ms * 2)
    ensures ms >= RECORD_SIZE ==> ms % RECORD_SIZE == 0
    ensures ms < RECORD_SIZE <= ms * 2 ==> ms * 2 == RECORD_SIZE
  {
  }

  /** `mb` runs of `ms` bytes come from `blocks` runs of `s` bytes by joining neighbours. */
  ghost predicate Halved(mb: nat, ms: nat, blocks: nat, s: nat)
    decreases if mb <= blocks then blocks - mb else 0
  {
    (mb == blocks && ms == s) || (0 < mb < blocks && ms % 2 == 0 && Halved(2 * mb, ms / 2, blocks, s))
  }

  lemma HalvedAndDoubled(mb: nat, half: nat, ms: nat)
    requires mb == 2 * half
    ensures half * (ms * 2) == mb * ms
  {
    var x := half * ms;
    assert mb * ms == 2 * x && half * (ms * 2) == 2 * x;
  }

  lemma {:induction false} HalvedSizes(mb: nat, ms: nat, blocks: nat, s: nat)
    requires Halved(mb, ms, blocks, s)
    ensures mb * ms == blocks * s && Doubled(s, ms)
    decreases if mb <= blocks then blocks - mb else 0
  {
    if mb != blocks || ms != s {
      var half := ms / 2;
      HalvedSizes(2 * mb, half, blocks, s);
      HalvedAndDoubled(2 * mb, mb, half);
      DoubledAgain(s, half);
    }
  }

  /** The sizes of a merge round: from `blocks` runs down to two, each run twice as long as in the round before. */
  ghost predicate RoundSizes(c: Config, mb: nat, ms: nat) {
    && 2 <= mb <= c.blocks && PowerOfTwo(mb)
    && Halved(mb, ms, c.blocks, c.sizeOfBlock)
    && (c.Fits() ==> WholeRecords(ms))
  }

  lemma PowerOfTwoHalf(n: nat)
    requires PowerOfTwo(n) && n >= 2
    ensures n % 2 == 0 && PowerOfTwo(n / 2) && n / 2 >= 1
  {
  }

  lemma PowerOfTwoQuarter(n: nat)
    requires PowerOfTwo(n) && n > 2
    ensures n / 2 == 2 * (n / 4)
  {
    PowerOfTwoHalf(n);
    PowerOfTwoHalf(n / 2);
  }

  lemma FirstRoundSizes(c: Config)
    requires c.Valid()
    ensures c.blocks % 2 == 0 && RoundSizes(c, c.blocks, c.sizeOfBlock)
  {
    PowerOfTwoHalf(c.blocks);
  }

  lemma NextRoundSizes(c: Config, mb: nat, ms: nat)
    requires RoundSizes(c, mb, ms) && mb > 2
    ensures RoundSizes(c, mb / 2, ms * 2)
  {
    PowerOfTwoHalf(mb);
    PowerOfTwoHalf(mb / 2);
    assert ms * 2 / 2 == ms;
    if c.Fits() {
      WholeRecordsDoubled(ms);
    }
  }

  /** The program computes the start of a block in bytes. */
  lemma BlockStart(c: Config, b: nat)
    requires c.sizeOfBlock % RECORD_SIZE == 0
    ensures b * c.sizeOfBlock / RECORD_SIZE == b * c.BlockRecs()
  {
    var x := b * c.BlockRecs();
    assert b * c.sizeOfBlock == b * (c.BlockRecs() * RECORD_SIZE) == x * RECORD_SIZE;
  }

  /** A block lies in the window; it ends with the window only if the blocks fit. */
  lemma BlockInside(c: Config, b: nat)
    requires c.Valid() && b < c.blocks
    ensures b * c.sizeOfBlock / RECORD_SIZE + c.BlockRecs() <= c.recsInBuffer
    ensures !c.Fits() ==> b * c.sizeOfBlock / RECORD_SIZE + c.BlockRecs() < c.recsInBuffer
  {
    var x := b * c.sizeOfBlock;
    BlocksInWindow(c);
    MulMono(b + 1, c.blocks, c.sizeOfBlock);
    assert x + c.sizeOfBlock == (b + 1) * c.sizeOfBlock <= c.blocks * c.sizeOfBlock <= c.size;
  }

  lemma RunsInside(mb: nat, ms: nat, n: nat, recs: nat, all: nat)
    requires mb >= 1 && n * RECORD_SIZE <= ms && mb * ms <= recs * RECORD_SIZE && all == mb * n
    ensures all <= recs
    ensures all == recs ==> ms == n * RECORD_SIZE && mb * ms == recs * RECORD_SIZE
  {
    MulMono(n * RECORD_SIZE, ms, mb);
    assert (n * RECORD_SIZE) * mb == all * RECORD_SIZE;
    if n * RECORD_SIZE < ms {
      MulMono(n * RECORD_SIZE + 1, ms, mb);
      assert (n * RECORD_SIZE + 1) * mb == all * RECORD_SIZE + mb;
    }
  }

  /** A pair of runs lies in the window; it ends with the window only if runs are whole records. */
  lemma PairInside(c: Config, mb: nat, ms: nat, cur: nat, n: nat, lo: nat)
    requires c.Valid() && RoundSizes(c, mb, ms) && cur + 2 <= mb && n == ms / RECORD_SIZE && lo == cur * n
    ensures lo + 2 * n <= c.recsInBuffer
    ensures lo + 2 * n == c.recsInBuffer ==> ms == n * RECORD_SIZE && c.blocks * c.sizeOfBlock == c.size
  {
    BlocksInWindow(c);
    HalvedSizes(mb, ms, c.blocks, c.sizeOfBlock);
    RunsInside(mb, ms, n, c.recsInBuffer, mb * n);
    MulMono(cur + 2, mb, n);
    assert lo + 2 * n == (cur + 2) * n;
  }

  // ---- The blocks and the pairs of runs of a window.

  ghost function Blank(k: nat): (pieces: seq<seq<Record>>)
    ensures |pieces| == k && forall i | 0 <= i < k :: pieces[i] == []
  {
    seq(k, _ => [])
  }

  /** The blocks of a window. Where no record is sorted with another one, they are taken to be empty. */
  ghost function BlocksOf(c: Config, w: seq<Record>): seq<seq<Record>> {
    if c.Fits() && c.BlockRecs() > 0 then Chunks(w, c.BlockRecs()) else Blank(c.blocks)
  }

  /** The pairs of a round, both runs of a pair together. */
  ghost function PairsOf(c: Config, w: seq<Record>, mb: nat, ms: nat): seq<seq<Record>> {
    if c.Fits() && ms >= RECORD_SIZE then Chunks(w, 2 * (ms / RECORD_SIZE)) else Blank(mb / 2)
  }

  lemma BlockCount(c: Config, w: seq<Record>)
    requires c.Valid() && |w| == c.recsInBuffer
    ensures |BlocksOf(c, w)| == c.blocks
    ensures c.Fits() && c.BlockRecs() > 0 ==> c.sizeOfBlock % RECORD_SIZE == 0
  {
    if c.Fits() && c.BlockRecs() > 0 {
      var x := c.blocks * c.BlockRecs();
      assert c.recsInBuffer * RECORD_SIZE == c.sizeOfBlock * c.blocks == x * RECORD_SIZE;
      ChunksLength(w, c.BlockRecs(), c.blocks);
    }
  }

  lemma RunsCover(mb: nat, half: nat, ms: nat, n: nat, recs: nat)
    requires mb == 2 * half && ms == n * RECORD_SIZE && mb * ms == recs * RECORD_SIZE
    ensures recs == half * (2 * n)
  {
    var x := half * n;
    assert mb * ms == (2 * half) * (n * RECORD_SIZE) == 2 * x * RECORD_SIZE;
    assert half * (2 * n) == 2 * x;
  }

  lemma PairsCover(c: Config, w: seq<Record>, mb: nat, ms: nat, half: nat, n: nat)
    requires c.Valid() && c.Fits() && |w| == c.recsInBuffer && RoundSizes(c, mb, ms) && ms >= RECORD_SIZE
    requires half == mb / 2 && n == ms / RECORD_SIZE
    ensures |w| == half * (2 * n)
  {
    PowerOfTwoHalf(mb);
    WholeRecordsDoubled(ms);
    HalvedSizes(mb, ms, c.blocks, c.sizeOfBlock);
    RunsCover(mb, half, ms, n, |w|);
  }

  lemma PairCount(c: Config, w: seq<Record>, mb: nat, ms: nat)
    requires c.Valid() && |w| == c.recsInBuffer && RoundSizes(c, mb, ms)
    ensures |PairsOf(c, w, mb, ms)| == mb / 2 && mb % 2 == 0
  {
    PowerOfTwoHalf(mb);
    if c.Fits() && ms >= RECORD_SIZE {
      PairsCover(c, w, mb, ms, mb / 2, ms / RECORD_SIZE);
      ChunksLength(w, 2 * (ms / RECORD_SIZE), mb / 2);
    }
  }
}
