/** With two threads or more, the result is the same under every schedule exactly for regular sizes. For all others
    there are files on which a second pass in one round makes a difference that no later round removes. */
module SortDepends {
  import opened Records
  import opened Passes
  import opened Hills
  import opened SortProtocol
  import opened SortSizes
  import opened SortDetermined
  import opened SortRegular
  import opened SortDifference

  // ---- Rounds that leave a window alone.

  lemma PairsInside(mb: nat, ms: nat, n: nat, records: nat)
    requires n == ms / RECORD_SIZE && mb * ms <= records * RECORD_SIZE
    ensures mb * n <= records
  {
    MulMono(n * RECORD_SIZE, ms, mb);
    var x := mb * n;
    assert (n * RECORD_SIZE) * mb == x * RECORD_SIZE;
  }

  lemma QuietRound(w: seq<Record>, lo: nat, hi: nat, mb: nat, ms: nat)
    requires PeaksBut(w, lo, hi) && (ms >= RECORD_SIZE ==> Avoids(lo, hi, ms / RECORD_SIZE))
    requires mb % 2 == 0 && mb * ms <= |w| * RECORD_SIZE
    ensures Pass(w, ms / RECORD_SIZE, mb / 2) == w
  {
    var n, k := ms / RECORD_SIZE, mb / 2;
    if n == 0 {
      EmptyPass(w, k);
    } else {
      PairsInside(mb, ms, n, |w|);
      forall j: nat | j < k ensures PairQuiet(w, n, j) {
        PeaksQuiet(w, lo, hi, n, k, j);
      }
      PassLeaves(w, n, k);
    }
  }

  /** So do the rounds from this one on. */
  ghost predicate RoundsAvoid(lo: nat, hi: nat, mb: nat, ms: nat)
    decreases mb
  {
    mb <= 1 || ((ms >= RECORD_SIZE ==> Avoids(lo, hi, ms / RECORD_SIZE)) && RoundsAvoid(lo, hi, mb / 2, ms * 2))
  }

  lemma {:induction false} QuietRounds(w: seq<Record>, lo: nat, hi: nat, mb: nat, ms: nat) returns (size: nat)
    requires PeaksBut(w, lo, hi) && RoundsAvoid(lo, hi, mb, ms)
    requires PowerOfTwo(mb) && mb * ms <= |w| * RECORD_SIZE
    ensures StillTo(w, mb, ms, 1, size)
    decreases mb
  {
    if mb == 1 {
      size := ms;
    } else {
      PowerOfTwoHalf(mb);
      QuietRound(w, lo, hi, mb, ms);
      HalvedAndDoubled(mb, mb / 2, ms);
      size := QuietRounds(w, lo, hi, mb / 2, ms * 2);
    }
  }

  // ---- One round in which a second pass matters to the end.

  /** Pair `p` of this round begins at record `o`. */
  ghost predicate PairOf(c: Config, mb: nat, ms: nat, n: nat, p: nat, o: nat) {
    && mb >= 2 && PowerOfTwo(mb) && mb * ms <= c.recsInBuffer * RECORD_SIZE
    && n == ms / RECORD_SIZE && p < mb / 2 && o == p * (2 * n)
  }

  lemma PairEnds(p: nat, k: nat, n: nat, o: nat)
    requires p < k && o == p * (2 * n)
    ensures o + 2 * n <= 2 * k * n
  {
    MulMono(p + 1, k, 2 * n);
    assert (p + 1) * (2 * n) == o + 2 * n && k * (2 * n) == 2 * k * n;
  }

  lemma PairFits(c: Config, mb: nat, ms: nat, n: nat, p: nat, o: nat)
    requires PairOf(c, mb, ms, n, p, o)
    ensures mb >= 2 && n == ms / RECORD_SIZE && p < mb / 2 && o == p * (2 * n)
    ensures mb % 2 == 0 && 2 * (mb / 2) * n <= c.recsInBuffer && o + 2 * n <= c.recsInBuffer
    ensures PowerOfTwo(mb / 2) && (mb / 2) * (ms * 2) <= c.recsInBuffer * RECORD_SIZE
  {
    PowerOfTwoHalf(mb);
    PairsInside(mb, ms, n, c.recsInBuffer);
    PairEnds(p, mb / 2, n, o);
    HalvedAndDoubled(mb, mb / 2, ms);
  }

  lemma HillDisagrees(c: Config, mb: nat, ms: nat, n: nat, p: nat, o: nat, a: nat)
    requires c.Valid() && WholeFile(c) && c.threads >= 2 && PairOf(c, mb, ms, n, p, o) && 1 <= a < n
    requires BlocksInOrder(c, Hill(c.recsInBuffer, o, a, n))
    requires StillTo(Hill(c.recsInBuffer, o, a, n), c.blocks, c.sizeOfBlock, mb, ms)
    requires RoundsAvoid(o + a + 1, o + n, mb / 2, ms * 2)
    ensures Disagree(c, FileWith(c, Hill(c.recsInBuffer, o, a, n)))
  {
    hide *;
    var recs, k := c.recsInBuffer, mb / 2;
    var w, once, twice := Hill(recs, o, a, n), HillOnce(recs, o, a, n), HillTwice(recs, o, a, n);
    PairFits(c, mb, ms, n, p, o);
    HillFirst(recs, o, a, n);
    HillSecond(recs, o, a, n);
    HillPeaks(recs, o, a, n);
    OnePairPass(w, once, n, k, p, o, o + a, o + n);
    OnePairPass(once, twice, n, k, p, o, o + a + 1, o + n);
    var size := QuietRounds(once, o + a + 1, o + n, k, ms * 2);
    var size' := QuietRounds(twice, o + a + 1, o + n, k, ms * 2);
    HillDiffers(recs, o, a, n);
    PassesDisagree(c, w, mb, ms, once, twice, size, size');
  }

  lemma CliffDisagrees(c: Config, mb: nat, ms: nat, n: nat, p: nat, o: nat)
    requires c.Valid() && WholeFile(c) && c.threads >= 2 && PairOf(c, mb, ms, n, p, o) && n >= 2
    requires BlocksInOrder(c, Cliff(c.recsInBuffer, o, n))
    requires StillTo(Cliff(c.recsInBuffer, o, n), c.blocks, c.sizeOfBlock, mb, ms)
    requires RoundsAvoid(o + n, o + n, mb / 2, ms * 2)
    ensures Disagree(c, FileWith(c, Cliff(c.recsInBuffer, o, n)))
  {
    hide *;
    var recs, k := c.recsInBuffer, mb / 2;
    var w, once, twice := Cliff(recs, o, n), CliffOnce(recs, o, n), CliffTwice(recs, o, n);
    PairFits(c, mb, ms, n, p, o);
    CliffFirst(recs, o, n);
    CliffSecond(recs, o, n);
    CliffPeaks(recs, o, n);
    OnePairPass(w, once, n, k, p, o, o + n, o + n + 1);
    OnePairPass(once, twice, n, k, p, o, o + n, o + n);
    var size := QuietRounds(once, o + n, o + n, k, ms * 2);
    var size' := QuietRounds(twice, o + n, o + n, k, ms * 2);
    CliffDiffers(recs, o, n);
    PassesDisagree(c, w, mb, ms, once, twice, size, size');
  }

  // ---- Blocks of several records that do not begin where runs do.

  lemma RunLength(s: nat, n: nat, r: nat, d: nat)
    requires s == RECORD_SIZE * n + r
    ensures s * d / RECORD_SIZE == n * d + r * d / RECORD_SIZE
  {
    var x, y := n * d, r * d;
    assert s * d == RECORD_SIZE * x + y;
  }

  /** Block `e` is the first that begins a record later than its run. */
  predicate FirstLate(r: nat, e: nat) {
    1 <= r < RECORD_SIZE && e >= 2 && (e - 1) * r < RECORD_SIZE <= e * r
  }

  lemma {:induction false} SomeFirstLate(r: nat, b: nat) returns (e: nat)
    requires 1 <= r < RECORD_SIZE && b * r >= RECORD_SIZE
    ensures FirstLate(r, e) && e <= b
    decreases b
  {
    if (b - 1) * r < RECORD_SIZE {
      e := b;
      assert b >= 2 by {
        assert b == 1 ==> b * r == r;
      }
    } else {
      e := SomeFirstLate(r, b - 1);
    }
  }

  lemma Below(a: nat, b: nat, n: nat)
    ensures a < b ==> a * n + n <= b * n
    ensures a + 1 < b ==> a * n + 2 * n <= b * n
  {
    var x := a * n;
    if a < b {
      MulMono(a + 1, b, n);
      assert (a + 1) * n == x + n;
    }
    if a + 1 < b {
      MulMono(a + 2, b, n);
      assert (a + 2) * n == x + 2 * n;
    }
  }

  lemma LateStarts(n: nat, r: nat, e: nat, b: nat, x: nat, y: nat)
    requires FirstLate(r, e) && x == n * b && y == r * b
    ensures b < e ==> x + y / RECORD_SIZE + n <= e * n
    ensures b >= e ==> x + y / RECORD_SIZE >= e * n + 1
  {
    assert n * b == b * n && r * b == b * r;
    if b < e {
      MulMono(b, e - 1, r);
      Below(b, e, n);
    } else {
      MulMono(e, b, r);
      MulMono(e, b, n);
    }
  }

  lemma LateBlocks(c: Config, n: nat, r: nat, e: nat, b: nat)
    requires c.sizeOfBlock == RECORD_SIZE * n + r && FirstLate(r, e)
    ensures b < e ==> BlockLo(c, b) + n <= e * n
    ensures b >= e ==> BlockLo(c, b) >= e * n + 1
    ensures c.BlockRecs() == n
  {
    RunLength(c.sizeOfBlock, n, r, b);
    assert b * c.sizeOfBlock == c.sizeOfBlock * b;
    LateStarts(n, r, e, b, n * b, r * b);
  }

  lemma HillSorted(recs: nat, o: nat, n: nat, lo: nat, hi: nat)
    requires lo <= hi <= recs && n >= 2 && (hi <= o || o + 1 <= lo)
    ensures Sorted(Hill(recs, o, 1, n)[lo..hi])
  {
  }

  lemma HillInOrder(c: Config, recs: nat, n: nat, r: nat, e: nat, o: nat)
    requires c.sizeOfBlock == RECORD_SIZE * n + r && FirstLate(r, e) && n >= 2 && o == e * n
    ensures BlocksInOrder(c, Hill(recs, o, 1, n))
  {
    hide FirstLate, BlockLo;
    var w := Hill(recs, o, 1, n);
    forall b: nat | b < c.blocks && BlockLo(c, b) + c.BlockRecs() <= |w|
      ensures Sorted(w[BlockLo(c, b)..BlockLo(c, b) + c.BlockRecs()])
    {
      LateBlocks(c, n, r, e, b);
      HillSorted(recs, o, n, BlockLo(c, b), BlockLo(c, b) + n);
    }
  }

  lemma CliffSorted(recs: nat, o: nat, n: nat, lo: nat, hi: nat)
    requires lo <= hi <= recs && n >= 2 && (hi <= o + n || o + n + 1 <= lo)
    ensures Sorted(Cliff(recs, o, n)[lo..hi])
  {
  }

  lemma CliffInOrder(c: Config, recs: nat, n: nat, r: nat, e: nat, o: nat)
    requires c.sizeOfBlock == RECORD_SIZE * n + r && FirstLate(r, e) && n >= 2 && o + n == e * n
    ensures BlocksInOrder(c, Cliff(recs, o, n))
  {
    hide FirstLate, BlockLo;
    var w := Cliff(recs, o, n);
    forall b: nat | b < c.blocks && BlockLo(c, b) + c.BlockRecs() <= |w|
      ensures Sorted(w[BlockLo(c, b)..BlockLo(c, b) + c.BlockRecs()])
    {
      LateBlocks(c, n, r, e, b);
      CliffSorted(recs, o, n, BlockLo(c, b), BlockLo(c, b) + n);
    }
  }

  /** Where the window is still out of order after the first round: behind the start of block `e`, or at it. */
  function OutFrom(n: nat, e: nat): nat { if e % 2 == 0 then e * n + 2 else e * n }

  function OutTo(n: nat, e: nat): nat { if e % 2 == 0 then e * n + n else e * n }

  lemma OutsideOf(n: nat, e: nat, k: nat, x: nat, y: nat)
    requires n >= 2 && k % 2 == 0 && (k == e ==> y == x) && (k < e ==> y + n <= x)
    requires (k > e ==> y >= x + n) && (k > e + 1 ==> y >= x + 2 * n)
    ensures e % 2 == 0 ==> !(x + 2 <= y <= x + n)
    ensures e % 2 == 1 ==> y != x
  {
  }

  lemma MultipleOutside(n: nat, e: nat, k: nat)
    requires n >= 2 && k % 2 == 0
    ensures !(OutFrom(n, e) <= k * n <= OutTo(n, e))
  {
    Below(k, e, n);
    Below(e, k, n);
    OutsideOf(n, e, k, e * n, k * n);
  }

  lemma OneLate(r: nat, e: nat)
    requires FirstLate(r, e)
    ensures e * r / RECORD_SIZE == 1
  {
    var x := (e - 1) * r;
    assert e * r == x + r;
  }

  lemma LaterRun(n: nat, r: nat, e: nat, d: nat, m: nat)
    requires n >= 2 && FirstLate(r, e) && d % 2 == 0 && d >= 2 && m == n * d + r * d / RECORD_SIZE
    ensures d < e ==> m == d * n
    ensures d == e ==> m == e * n + 1
    ensures d > e ==> m > OutTo(n, e)
  {
    var x, y := d * n, d * r;
    assert n * d == x && r * d == y;
    if d < e {
      MulMono(d, e - 1, r);
    } else if d == e {
      OneLate(r, e);
    } else {
      Below(e, d, n);
    }
  }

  lemma OddTimes(m: nat, j: nat)
    ensures j == 0 ==> (2 * j + 1) * m == m
    ensures j >= 1 ==> (2 * j + 1) * m >= 3 * m
  {
    if j >= 1 {
      MulMono(3, 2 * j + 1, m);
    }
  }

  lemma EvenMultiple(j: nat, d: nat, n: nat) returns (k: nat)
    requires d % 2 == 0
    ensures k % 2 == 0 && (2 * j + 1) * (d * n) == k * n
  {
    k := (2 * j + 1) * d;
    assert k == 2 * (j * d) + d;
  }

  lemma JustBehind(n: nat, e: nat, m: nat, q: nat)
    requires n >= 2 && e >= 2 && e % 2 == 0 && m == e * n + 1 && (q == m || q >= 3 * m)
    ensures !(OutFrom(n, e) <= q <= OutTo(n, e))
  {
    MulMono(2, e, n);
  }

  /** The heads of right runs of all later rounds avoid that place. */
  lemma LaterRunAvoids(n: nat, r: nat, e: nat, d: nat, m: nat, j: nat)
    requires n >= 2 && FirstLate(r, e) && d % 2 == 0 && d >= 2 && m == n * d + r * d / RECORD_SIZE
    ensures !Within(OutFrom(n, e), OutTo(n, e), m, j)
  {
    hide FirstLate, OutFrom, OutTo;
    LaterRun(n, r, e, d, m);
    OddTimes(m, j);
    if d < e {
      var k := EvenMultiple(j, d, n);
      MultipleOutside(n, e, k);
    } else if d == e {
      JustBehind(n, e, m, (2 * j + 1) * m);
    }
  }

  lemma {:induction false} LaterRoundsAvoid(s: nat, n: nat, r: nat, e: nat, d: nat, mb: nat, ms: nat)
    requires n >= 2 && FirstLate(r, e) && s == RECORD_SIZE * n + r && d % 2 == 0 && d >= 2 && ms == s * d
    ensures RoundsAvoid(OutFrom(n, e), OutTo(n, e), mb, ms)
    decreases mb
  {
    hide FirstLate, OutFrom, OutTo, Within;
    if mb > 1 {
      RunLength(s, n, r, d);
      forall j: nat ensures !Within(OutFrom(n, e), OutTo(n, e), ms / RECORD_SIZE, j) {
        LaterRunAvoids(n, r, e, d, ms / RECORD_SIZE, j);
      }
      assert ms * 2 == s * (d * 2);
      LaterRoundsAvoid(s, n, r, e, d * 2, mb / 2, ms * 2);
    }
  }

  lemma EvenStart(n: nat, e: nat, o: nat)
    requires o == e / 2 * (2 * n)
    ensures if e % 2 == 0 then o == e * n else o + n == e * n
  {
    var p := e / 2;
    var x := p * n;
    assert o == 2 * x && e * n == (2 * p + e % 2) * n == 2 * x + e % 2 * n;
  }

  lemma LateHillDisagrees(c: Config, n: nat, r: nat, e: nat, o: nat)
    requires c.Valid() && WholeFile(c) && c.threads >= 2 && n >= 2 && n == c.sizeOfBlock / RECORD_SIZE
    requires c.sizeOfBlock == RECORD_SIZE * n + r && FirstLate(r, e) && e % 2 == 0 && o == e * n
    requires PairOf(c, c.blocks, c.sizeOfBlock, n, e / 2, o)
    requires RoundsAvoid(OutFrom(n, e), OutTo(n, e), c.blocks / 2, c.sizeOfBlock * 2)
    ensures Disagree(c, FileWith(c, Hill(c.recsInBuffer, o, 1, n)))
  {
    hide FirstLate, PairOf, RoundsAvoid, BlocksInOrder, Disagree;
    HillInOrder(c, c.recsInBuffer, n, r, e, o);
    HillDisagrees(c, c.blocks, c.sizeOfBlock, n, e / 2, o, 1);
  }

  lemma LateCliffDisagrees(c: Config, n: nat, r: nat, e: nat, o: nat)
    requires c.Valid() && WholeFile(c) && c.threads >= 2 && n >= 2 && n == c.sizeOfBlock / RECORD_SIZE
    requires c.sizeOfBlock == RECORD_SIZE * n + r && FirstLate(r, e) && e % 2 == 1 && o + n == e * n
    requires PairOf(c, c.blocks, c.sizeOfBlock, n, e / 2, o)
    requires RoundsAvoid(OutFrom(n, e), OutTo(n, e), c.blocks / 2, c.sizeOfBlock * 2)
    ensures Disagree(c, FileWith(c, Cliff(c.recsInBuffer, o, n)))
  {
    hide FirstLate, PairOf, RoundsAvoid, BlocksInOrder, Disagree;
    CliffInOrder(c, c.recsInBuffer, n, r, e, o);
    CliffDisagrees(c, c.blocks, c.sizeOfBlock, n, e / 2, o);
  }

  lemma LateBlockDisagrees(c: Config) returns (file: seq<seq<Record>>)
    requires c.Valid() && WholeFile(c) && c.threads >= 2 && !BlocksAreRuns(c)
    ensures Disagree(c, file)
  {
    hide FirstLate, RoundsAvoid, Disagree;
    var s, n, r := c.sizeOfBlock, c.BlockRecs(), c.sizeOfBlock % RECORD_SIZE;
    var e := SomeFirstLate(r, c.blocks - 1);
    var o := e / 2 * (2 * n);
    BlocksInWindow(c);
    FirstRoundSizes(c);
    EvenStart(n, e, o);
    LaterRoundsAvoid(s, n, r, e, 2, c.blocks / 2, s * 2);
    if e % 2 == 0 {
      LateHillDisagrees(c, n, r, e, o);
      file := FileWith(c, Hill(c.recsInBuffer, o, 1, n));
    } else {
      LateCliffDisagrees(c, n, r, e, o);
      file := FileWith(c, Cliff(c.recsInBuffer, o, n));
    }
  }

  // ---- Rounds whose runs do not consist of two runs of the round before.

  /** Before the round (`last`, `size`) runs are empty, or `n` comes from their length by doubling. */
  ghost predicate EvenUpTo(mb: nat, ms: nat, last: nat, size: nat, n: nat)
    decreases mb
  {
    (mb == last && ms == size) ||
    (mb > last && mb > 1 && (ms < RECORD_SIZE || Doubled(ms / RECORD_SIZE, n)) &&
     EvenUpTo(mb / 2, ms * 2, last, size, n))
  }

  lemma {:induction false} DoubledFromHalf(x: nat, n: nat)
    requires x >= 1 && Doubled(2 * x, n)
    ensures Doubled(x, n)
    decreases n
  {
    if n == 2 * x {
      assert Doubled(x, n / 2);
    } else {
      DoubledFromHalf(x, n / 2);
    }
  }

  lemma {:induction false} FirstUneven(mb: nat, ms: nat, records: nat) returns (last: nat, size: nat, n: nat)
    requires PowerOfTwo(mb) && !EvenRuns(mb, ms) && mb * ms <= records * RECORD_SIZE
    ensures PowerOfTwo(last) && last >= 2 && last * size <= records * RECORD_SIZE
    ensures n >= 1 && size / RECORD_SIZE == 2 * n + 1 && EvenUpTo(mb, ms, last, size, n)
    decreases mb
  {
    PowerOfTwoHalf(mb);
    HalvedAndDoubled(mb, mb / 2, ms);
    if ms >= RECORD_SIZE && ms % RECORD_SIZE >= RECORD_SIZE / 2 {
      last, size, n := mb / 2, ms * 2, ms / RECORD_SIZE;
    } else {
      last, size, n := FirstUneven(mb / 2, ms * 2, records);
      TwoRuns(ms);
      if ms >= RECORD_SIZE {
        DoubledFromHalf(ms / RECORD_SIZE, n);
      }
    }
  }

  lemma {:induction false} DoubledMultiple(m: nat, n: nat) returns (t: nat)
    requires Doubled(m, n)
    ensures n == t * m
    decreases n
  {
    if n == m {
      t := 1;
    } else {
      var half := DoubledMultiple(m, n / 2);
      t := 2 * half;
      assert t * m == 2 * (half * m);
    }
  }

  lemma OddIsNotEven(m: nat, j: nat, t: nat)
    requires m >= 1
    ensures (2 * j + 1) * m != 2 * (t * m)
    ensures (2 * j + 1) * m == 2 * (t * m) + 1 ==> m == 1
  {
    if t <= j {
      MulMono(2 * t + 1, 2 * j + 1, m);
      assert (2 * t + 1) * m == 2 * (t * m) + m;
    } else {
      MulMono(2 * j + 2, 2 * t, m);
      assert (2 * j + 2) * m == (2 * j + 1) * m + m && (2 * t) * m == 2 * (t * m);
    }
  }

  /** A hill at the start of the window, with only one low record in its first run, is in order for shorter runs. */
  lemma SlopeQuiet(recs: nat, n: nat, m: nat, j: nat)
    requires n >= 1 && m >= 1 && Doubled(m, n) && (2 * j + 1) * m + m <= recs
    ensures PairQuiet(Hill(recs, 0, 2 * n, 2 * n + 1), m, j)
  {
    var t := DoubledMultiple(m, n);
    OddIsNotEven(m, j, t);
  }

  lemma HeadInside(mb: nat, m: nat, recs: nat, j: nat)
    requires 2 * j + 2 <= mb && mb * m <= recs
    ensures (2 * j + 1) * m + m <= recs
  {
    MulMono(2 * j + 2, mb, m);
    assert (2 * j + 2) * m == (2 * j + 1) * m + m;
  }

  lemma SlopeRound(recs: nat, n: nat, mb: nat, ms: nat)
    requires n >= 1 && mb % 2 == 0 && mb * ms <= recs * RECORD_SIZE
    requires ms < RECORD_SIZE || Doubled(ms / RECORD_SIZE, n)
    ensures Pass(Hill(recs, 0, 2 * n, 2 * n + 1), ms / RECORD_SIZE, mb / 2) == Hill(recs, 0, 2 * n, 2 * n + 1)
  {
    hide PairQuiet;
    var w, m, k := Hill(recs, 0, 2 * n, 2 * n + 1), ms / RECORD_SIZE, mb / 2;
    if m == 0 {
      EmptyPass(w, k);
    } else {
      PairsInside(mb, ms, m, recs);
      forall j: nat | j < k ensures PairQuiet(w, m, j) {
        HeadInside(mb, m, recs, j);
        SlopeQuiet(recs, n, m, j);
      }
      PassLeaves(w, m, k);
    }
  }

  lemma {:induction false} SlopeStill(recs: nat, n: nat, mb: nat, ms: nat, last: nat, size: nat)
    requires n >= 1 && PowerOfTwo(mb) && mb * ms <= recs * RECORD_SIZE && EvenUpTo(mb, ms, last, size, n)
    ensures StillTo(Hill(recs, 0, 2 * n, 2 * n + 1), mb, ms, last, size)
    decreases mb
  {
    if mb != last || ms != size {
      PowerOfTwoHalf(mb);
      SlopeRound(recs, n, mb, ms);
      HalvedAndDoubled(mb, mb / 2, ms);
      SlopeStill(recs, n, mb / 2, ms * 2, last, size);
    }
  }

  lemma {:induction false} LongRunsAvoid(lo: nat, hi: nat, mb: nat, ms: nat)
    requires ms / RECORD_SIZE > hi
    ensures RoundsAvoid(lo, hi, mb, ms)
    decreases mb
  {
    if mb > 1 {
      forall j: nat ensures !Within(lo, hi, ms / RECORD_SIZE, j) {
        OddTimes(ms / RECORD_SIZE, j);
      }
      LongRunsAvoid(lo, hi, mb / 2, ms * 2);
    }
  }

  lemma SingleBlocksInOrder(c: Config, w: seq<Record>)
    requires c.BlockRecs() <= 1
    ensures BlocksInOrder(c, w)
  {
  }

  lemma UnevenRunsDisagree(c: Config) returns (file: seq<seq<Record>>)
    requires c.Valid() && WholeFile(c) && c.threads >= 2 && c.BlockRecs() <= 1 && !EvenRuns(c.blocks, c.sizeOfBlock)
    ensures Disagree(c, file)
  {
    hide Disagree, StillTo, RoundsAvoid, BlocksInOrder;
    BlocksInWindow(c);
    var last, size, n := FirstUneven(c.blocks, c.sizeOfBlock, c.recsInBuffer);
    var w := Hill(c.recsInBuffer, 0, 2 * n, 2 * n + 1);
    SlopeStill(c.recsInBuffer, n, c.blocks, c.sizeOfBlock, last, size);
    SingleBlocksInOrder(c, w);
    LongRunsAvoid(2 * n + 1, 2 * n + 1, last / 2, size * 2);
    HillDisagrees(c, last, size, 2 * n + 1, 0, 0, 2 * n);
    file := FileWith(c, w);
  }

  // ---- Exactly when the result depends on the schedule.

  lemma {:induction false} AlignedRunsEven(mb: nat, ms: nat)
    requires PowerOfTwo(mb) && ms >= RECORD_SIZE && (mb - 1) * (ms % RECORD_SIZE) < RECORD_SIZE
    ensures EvenRuns(mb, ms)
    decreases mb
  {
    if mb > 2 {
      var r := ms % RECORD_SIZE;
      PowerOfTwoQuarter(mb);
      MulMono(3, mb - 1, r);
      assert ms * 2 % RECORD_SIZE == 2 * r;
      assert (mb / 2 - 1) * (2 * r) == (mb - 2) * r;
      MulMono(mb - 2, mb - 1, r);
      AlignedRunsEven(mb / 2, ms * 2);
    }
  }

  lemma IrregularDisagrees(c: Config) returns (file: seq<seq<Record>>)
    requires c.Valid() && WholeFile(c) && c.threads >= 2 && !Regular(c)
    ensures Disagree(c, file)
  {
    if !BlocksAreRuns(c) {
      file := LateBlockDisagrees(c);
    } else {
      if c.BlockRecs() >= 2 {
        AlignedRunsEven(c.blocks, c.sizeOfBlock);
      }
      file := UnevenRunsDisagree(c);
    }
  }

  /** With one thread, or with regular sizes, two finished runs write the same time marks in the same order, and the
      same records if `qsort` is stable. */
  lemma ResultIndependentOfSchedule(c: Config, file: seq<seq<Record>>, a: seq<Label>, b: seq<Label>)
    requires c.Valid() && (c.threads == 1 || Regular(c)) && FileOf(c, file) && |file| > 0
    ensures Agree(c, file, a, b)
  {
    if c.threads >= 2 {
      forall i | 0 <= i < |file| ensures Settled(c, file[i]) {
        RegularSettled(c, file[i]);
      }
    }
    SettledAgree(c, file, a, b);
  }

  /** Whatever the file, all calm schedules that finish write the same. */
  ghost predicate AlwaysAgree(c: Config) {
    forall file, a, b | FileOf(c, file) && |file| > 0 :: Agree(c, file, a, b)
  }

  /** The result is independent of the schedule if and only if there is one thread or sizes are regular. */
  lemma IndependentExactly(c: Config)
    requires c.Valid() && WholeFile(c)
    ensures AlwaysAgree(c) <==> c.threads == 1 || Regular(c)
  {
    if c.threads == 1 || Regular(c) {
      forall file, a, b | FileOf(c, file) && |file| > 0 ensures Agree(c, file, a, b) {
        ResultIndependentOfSchedule(c, file, a, b);
      }
    } else {
      var file := IrregularDisagrees(c);
      assert Disagree(c, file);
    }
  }
}
