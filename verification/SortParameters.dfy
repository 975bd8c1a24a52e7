/** The checks and divisions with which `main` of Lab6/src/sort_index.c sets up the parallel sort. */
module SortParameters {
  import opened Records
  import opened Merging
  import opened SortExact
  import opened SortProtocol
  import opened SortRegular
  import opened SortDepends

  const MAX_THREADS := 8192

  /** Bitwise and. */
  function BitAnd(a: nat, b: nat): nat {
    if a == 0 || b == 0 then 0
    else 2 * BitAnd(a / 2, b / 2) + (if a % 2 == 1 && b % 2 == 1 then 1 else 0)
  }

  lemma {:induction false} BitAndSelf(n: nat)
    ensures BitAnd(n, n) == n
  {
    if n > 0 {
      BitAndSelf(n / 2);
    }
  }

  /** `n & (n - 1)` is zero exactly for powers of two. */
  lemma {:induction false} PowerTest(n: nat)
    requires n > 0
    ensures BitAnd(n, n - 1) == 0 <==> PowerOfTwo(n)
  {
    if n > 1 {
      if n % 2 == 0 {
        assert (n - 1) / 2 == n / 2 - 1 && (n - 1) % 2 == 1;
        PowerTest(n / 2);
      } else {
        assert (n - 1) / 2 == n / 2;
        BitAndSelf(n / 2);
      }
    }
  }

  datatype Verdict = BadSize | BadBlocks | TooFewBlocks | BadThreads | Accepted

  /** The argument checks. A negative number of blocks keeps its sign bit in the bitwise and. */
  method CheckArguments(size: int, blocks: int, threads: int, pagesize: nat, cores: nat) returns (v: Verdict)
    requires pagesize > 0 && cores > 0
    ensures v.Accepted? <==>
            size % pagesize == 0 && PowerOfTwo(blocks) && cores <= threads <= MAX_THREADS && threads < blocks
    ensures v.BadSize? <==> size % pagesize != 0
    ensures v.BadBlocks? <==> size % pagesize == 0 && blocks != 0 && !PowerOfTwo(blocks)
    ensures v.TooFewBlocks? <==> size % pagesize == 0 && (blocks == 0 || PowerOfTwo(blocks)) && blocks <= threads
  {
    if blocks > 0 {
      PowerTest(blocks);
    }
    if size % pagesize != 0 {
      return BadSize;
    }
    if blocks < 0 || (blocks > 0 && BitAnd(blocks, blocks - 1) != 0) {
      return BadBlocks;
    }
    if blocks <= threads {
      return TooFewBlocks;
    }
    if threads < cores || threads > MAX_THREADS {
      return BadThreads;
    }
    return Accepted;
  }

  /** The globals as `main` computes them. */
  function Configure(size: nat, blocks: nat, threads: nat, sizeOfFile: nat, stableQsort: bool): Config
    requires blocks > 0
  {
    Config(size, blocks, threads, sizeOfFile, size / blocks, size / RECORD_SIZE, sizeOfFile / RECORD_SIZE, stableQsort)
  }

  lemma EuclidUnique(q: int, r: int, q': int, r': int, d: int)
    requires 0 <= r < d && 0 <= r' < d && q * d + r == q' * d + r'
    ensures q == q' && r == r'
  {
    var x := q - q';
    assert x * d == r' - r;
    assert x >= 1 ==> (x - 1) * d >= 0;
    assert x <= -1 ==> (x + 1) * d <= 0;
  }

  lemma DivideExactly(n: nat, q: nat, d: nat)
    requires d > 0 && n == q * d
    ensures n / d == q && n % d == 0
  {
    EuclidUnique(q, 0, n / d, n % d, d);
  }

  lemma WholeBlocksBack(size: nat, blocks: nat, k: nat, d: nat)
    requires blocks > 0 && d == RECORD_SIZE * blocks && size == (k * RECORD_SIZE) * blocks
    ensures size % d == 0
  {
    var x := k * blocks;
    assert size == RECORD_SIZE * x == k * d;
    DivideExactly(size, k, d);
  }

  lemma WholeBlocksFrom(size: nat, blocks: nat, q: nat, d: nat)
    requires size > 0 && blocks > 0 && d == RECORD_SIZE * blocks && size == d * q
    ensures q > 0 && size / blocks == RECORD_SIZE * q && (RECORD_SIZE * q) * blocks == size
  {
    var x := q * blocks;
    assert size == RECORD_SIZE * x == (RECORD_SIZE * q) * blocks;
    DivideExactly(size, RECORD_SIZE * q, blocks);
  }

  lemma ExactBlocks(size: nat, blocks: nat, sizeOfBlock: nat)
    requires blocks > 0 && sizeOfBlock == size / blocks
    ensures sizeOfBlock * blocks == size <==> size % blocks == 0
  {
    var r := size % blocks;
    assert size == sizeOfBlock * blocks + r;
  }

  lemma WholeBlocks(size: nat, blocks: nat, sizeOfBlock: nat, d: nat)
    requires size > 0 && blocks > 0 && sizeOfBlock == size / blocks && d == RECORD_SIZE * blocks
    ensures sizeOfBlock % RECORD_SIZE == 0 && sizeOfBlock * blocks == size <==> size % d == 0
  {
    if size % d == 0 {
      var q := size / d;
      assert size == d * q;
      WholeBlocksFrom(size, blocks, q, d);
    } else if sizeOfBlock % RECORD_SIZE == 0 && sizeOfBlock * blocks == size {
      WholeBlocksBack(size, blocks, sizeOfBlock / RECORD_SIZE, d);
    }
  }

  /** The window is cut into blocks of whole records, or into blocks of which a whole number makes a record. */
  predicate EvenBlocks(size: nat, blocks: nat)
    requires blocks > 0
  {
    || size % (RECORD_SIZE * blocks) == 0
    || (size % blocks == 0 && size / blocks > 0 && RECORD_SIZE % (size / blocks) == 0)
  }

  lemma RecordParts(s: nat)
    ensures s > 0 && RECORD_SIZE % s == 0 <==> s in {1, 2, 4, 8, 16}
  {
    if s > RECORD_SIZE {
      assert RECORD_SIZE % s == RECORD_SIZE;
    } else {
      assert s in {0, 1, 2, 3, 4, 5, 6, 7, 8, 9, 10, 11, 12, 13, 14, 15, 16};
    }
  }

  lemma FitsExactly(c: Config)
    requires c.Valid()
    ensures c.Fits() <==> EvenBlocks(c.size, c.blocks)
  {
    var d := RECORD_SIZE * c.blocks;
    ExactBlocks(c.size, c.blocks, c.sizeOfBlock);
    WholeBlocks(c.size, c.blocks, c.sizeOfBlock, d);
    assert c.sizeOfBlock * c.blocks == c.size ==> c.sizeOfBlock > 0;
    RecordParts(c.sizeOfBlock);
  }

  lemma SameRecords(records: nat, m: nat, recs: nat, size: nat)
    requires recs * RECORD_SIZE == size && records * RECORD_SIZE == m * size
    ensures records == m * recs
  {
    assert m * size == (m * recs) * RECORD_SIZE;
  }

  /** The file, cut into windows, consists of whole windows exactly if the window divides its size. */
  lemma WholeWindows(c: Config, records: seq<Record>)
    requires c.Valid() && |records| == c.amountOfRecs
    ensures FileOf(c, Chunks(records, c.recsInBuffer)) <==> c.sizeOfFile % c.size == 0
    ensures c.sizeOfFile % c.size == 0 ==> Concat(Chunks(records, c.recsInBuffer)) == records
  {
    var windows := Chunks(records, c.recsInBuffer);
    ChunkSizes(records, c.recsInBuffer);
    if c.sizeOfFile % c.size == 0 {
      var m := c.sizeOfFile / c.size;
      SameRecords(|records|, m, c.recsInBuffer, c.size);
      ChunksLength(records, c.recsInBuffer, m);
      ConcatChunks(records, c.recsInBuffer, m);
    } else if |windows| * c.size == c.sizeOfFile {
      DivideExactly(c.sizeOfFile, |windows|, c.size);
    }
  }

  lemma ConfigureValid(size: nat, blocks: nat, threads: nat, sizeOfFile: nat, stableQsort: bool)
    requires size > 0 && size % RECORD_SIZE == 0 && PowerOfTwo(blocks) && 1 <= threads < blocks
    requires sizeOfFile > 0 && sizeOfFile % RECORD_SIZE == 0 && sizeOfFile % size == 0
    ensures var c := Configure(size, blocks, threads, sizeOfFile, stableQsort); c.Valid() && WholeFile(c)
  {
  }

  lemma ManyRecords(records: nat, m: nat, size: nat)
    requires records > 0 && records * RECORD_SIZE == m * size
    ensures m > 0
  {
  }

  /** The globals as they follow from the arguments and the file: the file as its windows, one after the other, each of
      the size asked for, and as many threads and blocks as asked for. */
  lemma Configured(records: seq<Record>, size: nat, blocks: nat, threads: nat, stableQsort: bool)
    requires size > 0 && size % RECORD_SIZE == 0 && PowerOfTwo(blocks) && 1 <= threads < blocks
    requires |records| > 0 && |records| * RECORD_SIZE % size == 0
    ensures var c := Configure(size, blocks, threads, |records| * RECORD_SIZE, stableQsort);
            && c.Valid() && WholeFile(c) && |records| == c.amountOfRecs
            && var windows := Chunks(records, c.recsInBuffer);
            && FileOf(c, windows) && |windows| > 0 && Concat(windows) == records
            && (forall i | 0 <= i < |windows| :: |windows[i]| * RECORD_SIZE == size)
            && |Initial(c, windows).pcs| == threads && |InitialBusy(c)| == blocks && c.stableQsort == stableQsort
  {
    var c := Configure(size, blocks, threads, |records| * RECORD_SIZE, stableQsort);
    ConfigureValid(size, blocks, threads, |records| * RECORD_SIZE, stableQsort);
    WholeWindows(c, records);
    ManyRecords(|records|, |Chunks(records, c.recsInBuffer)|, size);
  }

  lemma FileBytes(c: Config, file: seq<seq<Record>>)
    requires c.Valid() && FileOf(c, file)
    ensures |Concat(file)| * RECORD_SIZE == c.sizeOfFile
  {
    ConcatUniform(file, c.recsInBuffer);
    var x := |file| * c.recsInBuffer;
    assert |file| * (c.recsInBuffer * RECORD_SIZE) == x * RECORD_SIZE;
  }

  /** Which of the accepted arguments sort every file: exactly those with even blocks. */
  lemma SortsExactlyWithEvenBlocks(size: nat, blocks: nat, threads: nat, sizeOfFile: nat, stableQsort: bool)
    requires size >= 2 * RECORD_SIZE && size % RECORD_SIZE == 0 && PowerOfTwo(blocks) && 1 <= threads < blocks
    requires sizeOfFile > 0 && sizeOfFile % RECORD_SIZE == 0 && sizeOfFile % size == 0
    ensures Configure(size, blocks, threads, sizeOfFile, stableQsort).Valid()
    ensures SortsEveryFile(Configure(size, blocks, threads, sizeOfFile, stableQsort)) <==> EvenBlocks(size, blocks)
    ensures forall file | FileOf(Configure(size, blocks, threads, sizeOfFile, stableQsort), file) ::
              |Concat(file)| * RECORD_SIZE == sizeOfFile
  {
    hide SortsEveryFile, EvenBlocks;
    var c := Configure(size, blocks, threads, sizeOfFile, stableQsort);
    ConfigureValid(size, blocks, threads, sizeOfFile, stableQsort);
    SortsExactly(c);
    FitsExactly(c);
    forall file | FileOf(c, file) ensures |Concat(file)| * RECORD_SIZE == sizeOfFile {
      FileBytes(c, file);
    }
  }

  lemma PowersUpTo512()
    ensures PowerOfTwo(512)
  {
    assert PowerOfTwo(8) && PowerOfTwo(16) && PowerOfTwo(32) && PowerOfTwo(64);
    assert PowerOfTwo(128) && PowerOfTwo(256);
  }

  /** With pages of 4096 bytes, 512 blocks and 8 threads, a window of one page sorts every file, and a window of
      three pages, which the checks accept as well, does not. */
  lemma AcceptedButUnsorted()
    ensures 4096 % 4096 == 12288 % 4096 == 0 && PowerOfTwo(512) && 8 <= MAX_THREADS && 8 < 512
    ensures SortsEveryFile(Configure(4096, 512, 8, 12288, true))
    ensures !SortsEveryFile(Configure(12288, 512, 8, 12288, true))
  {
    PowersUpTo512();
    SortsExactlyWithEvenBlocks(4096, 512, 8, 12288, true);
    SortsExactlyWithEvenBlocks(12288, 512, 8, 12288, true);
  }

  /** With these two windows the result is independent of the schedule, or it is not. */
  lemma AcceptedButUndetermined()
    ensures AlwaysAgree(Configure(4096, 512, 8, 12288, true))
    ensures !AlwaysAgree(Configure(12288, 512, 8, 12288, true))
  {
    PowersUpTo512();
    var even, uneven := Configure(4096, 512, 8, 12288, true), Configure(12288, 512, 8, 12288, true);
    assert even.Valid() && uneven.Valid();
    FittingIsRegular(even);
    IndependentExactly(even);
    IndependentExactly(uneven);
  }

  lemma PowersUpTo256(n: nat)
    requires PowerOfTwo(n) && n <= 256
    ensures n in {1, 2, 4, 8, 16, 32, 64, 128, 256}
  {
    if n > 1 {
      PowersUpTo256(n / 2);
    }
  }

  /** With pages of 4096 bytes, up to 256 blocks are always even. */
  lemma FewBlocksAreEven(size: nat, blocks: nat)
    requires size > 0 && size % 4096 == 0 && blocks <= 256 && PowerOfTwo(blocks)
    ensures EvenBlocks(size, blocks)
  {
    PowersUpTo256(blocks);
    var pages := size / 4096;
    if blocks == 1 { DivideExactly(size, pages * 256, 16); }
    else if blocks == 2 { DivideExactly(size, pages * 128, 32); }
    else if blocks == 4 { DivideExactly(size, pages * 64, 64); }
    else if blocks == 8 { DivideExactly(size, pages * 32, 128); }
    else if blocks == 16 { DivideExactly(size, pages * 16, 256); }
    else if blocks == 32 { DivideExactly(size, pages * 8, 512); }
    else if blocks == 64 { DivideExactly(size, pages * 4, 1024); }
    else if blocks == 128 { DivideExactly(size, pages * 2, 2048); }
    else { DivideExactly(size, pages, 4096); }
  }
}
